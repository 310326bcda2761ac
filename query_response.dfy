/**
 * QueryResponse.java and its two subclasses: the backend's answer to a query. Status 0 marks
 * an error; the list and single-object responses add the "contents" value, null (None) when
 * the answer has none.
 */
module QueryResponse {
  import opened Wrappers
  import opened Json
  import opened ErrorType

  datatype QueryResponse = QueryResponse(statusCode: int, errorType: ErrorType, errorMessage: string)

  /** `isError()` */
  predicate IsError(r: QueryResponse) {
    r.statusCode == 0
  }

  /** The error type as fromJSON reads it: NONE when absent, the type with the stored code when present */
  function ErrorTypeOr(o: JsonObject): Option<ErrorType> {
    if "error_code" in o then
      match GetInt(o, "error_code")
      case None => None
      case Some(code) => Some(FromCode(code))
    else Some(NoError)
  }

  /** `QueryResponse.fromJSON(json)`: each present key is read, each missing one keeps its default; a value of the wrong type throws (None) */
  function FromJson(o: JsonObject): Option<QueryResponse> {
    var statusCode :- IntOr(o, "status", 0);
    var errorType :- ErrorTypeOr(o);
    var errorMessage :- StringOr(o, "error_message", "");
    Some(QueryResponse(statusCode, errorType, errorMessage))
  }

  /**
   * fromJSON throws exactly when a present key holds a value of the wrong type. An answer that
   * carries no status counts as an error, and one that carries no known error code has type NONE.
   */
  lemma FromJsonResult(o: JsonObject)
    ensures FromJson(o).Some? <==>
      IntOrAbsent(o, "status") && IntOrAbsent(o, "error_code") && StringOrAbsent(o, "error_message")
    ensures FromJson(o).Some? ==>
      && (IsError(FromJson(o).value) <==> "status" !in o || o["status"].i == 0)
      && (FromJson(o).value.errorType == NoError <==> "error_code" !in o || o["error_code"].i !in {1, 2})
      && ("error_message" in o ==> o["error_message"] == JString(FromJson(o).value.errorMessage))
  {
  }

  datatype InformationListQueryResponse = InformationListQueryResponse(response: QueryResponse, contents: Option<seq<Json>>)

  /** The contents as the list response reads them: null when absent, an array required when present */
  function ArrayContentsOr(o: JsonObject): Option<Option<seq<Json>>> {
    if "contents" in o then
      match GetArray(o, "contents")
      case None => None
      case Some(a) => Some(Some(a))
    else Some(None)
  }

  /** `InformationListQueryResponse.fromJSON(json)` */
  function ListFromJson(o: JsonObject): Option<InformationListQueryResponse> {
    var response :- FromJson(o);
    var contents :- ArrayContentsOr(o);
    Some(InformationListQueryResponse(response, contents))
  }

  /** The list response carries the plain response unchanged, and the "contents" array when there is one */
  lemma ListFromJsonResult(o: JsonObject)
    ensures ListFromJson(o).Some? <==>
      FromJson(o).Some? && ("contents" in o ==> o["contents"].JArray?)
    ensures ListFromJson(o).Some? ==>
      && ListFromJson(o).value.response == FromJson(o).value
      && (ListFromJson(o).value.contents.None? <==> "contents" !in o)
      && ("contents" in o ==> o["contents"] == JArray(ListFromJson(o).value.contents.value))
  {
  }

  datatype InformationQueryResponse = InformationQueryResponse(response: QueryResponse, contents: Option<JsonObject>)

  /** The contents as the single-object response reads them: null when absent, an object required when present */
  function ObjectContentsOr(o: JsonObject): Option<Option<JsonObject>> {
    if "contents" in o then
      match GetObject(o, "contents")
      case None => None
      case Some(c) => Some(Some(c))
    else Some(None)
  }

  /** `InformationQueryResponse.fromJSON(json)` */
  function ObjectFromJson(o: JsonObject): Option<InformationQueryResponse> {
    var response :- FromJson(o);
    var contents :- ObjectContentsOr(o);
    Some(InformationQueryResponse(response, contents))
  }

  /** The single-object response carries the plain response unchanged, and the "contents" object when there is one */
  lemma ObjectFromJsonResult(o: JsonObject)
    ensures ObjectFromJson(o).Some? <==>
      FromJson(o).Some? && ("contents" in o ==> o["contents"].JObject?)
    ensures ObjectFromJson(o).Some? ==>
      && ObjectFromJson(o).value.response == FromJson(o).value
      && (ObjectFromJson(o).value.contents.None? <==> "contents" !in o)
      && ("contents" in o ==> o["contents"] == JObject(ObjectFromJson(o).value.contents.value))
  {
  }

  /** One answer cannot be read both ways: a list response and a single-object response need "contents" of different types */
  lemma ContentsShapesExclusive(o: JsonObject)
    requires "contents" in o
    ensures !(ListFromJson(o).Some? && ObjectFromJson(o).Some?)
  {
  }
}
