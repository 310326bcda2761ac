/** QueryException.java: the error raised when a query fails, with the query's name. */
module QueryException {
  import opened ErrorReports

  datatype QueryException = QueryException(errorType: ReportType, query: string, message: string)

  /** `getLogLevel()` */
  function GetLogLevel(e: QueryException): Level {
    LogLevel(e.errorType)
  }

  /** `buildAlert()`: the message under the header "Query Error", with the alert type of the error type */
  function BuildAlert(e: QueryException): (a: Alert)
    ensures a.message == e.message && a.header == "Query Error"
    ensures a.alertType == Error <==> GetLogLevel(e) == Severe
    ensures a.alertType == WarningAlert <==> GetLogLevel(e) == Warning
  {
    AlertMatchesLogLevel(e.errorType);
    Alert(AlertTypeOf(e.errorType), e.message, "Query Error")
  }
}
