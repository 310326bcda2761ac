/** ClientException.java: an error of the client itself, with the place it came from. */
module ClientException {
  import opened ErrorReports
  import QueryException

  datatype ClientException = ClientException(errorType: ReportType, source: string, message: string)

  /** `ClientException(type, message)`: no source */
  function WithoutSource(errorType: ReportType, message: string): (e: ClientException)
    ensures e.errorType == errorType && e.message == message && e.source == ""
  {
    ClientException(errorType, "", message)
  }

  /** `getLogLevel()` */
  function GetLogLevel(e: ClientException): Level {
    LogLevel(e.errorType)
  }

  /** `buildAlert()`: the message under the header "Program Error", with the alert type of the error type */
  function BuildAlert(e: ClientException): (a: Alert)
    ensures a.message == e.message && a.header == "Program Error"
    ensures a.alertType == Error <==> GetLogLevel(e) == Severe
    ensures a.alertType == WarningAlert <==> GetLogLevel(e) == Warning
  {
    AlertMatchesLogLevel(e.errorType);
    Alert(AlertTypeOf(e.errorType), e.message, "Program Error")
  }

  /** A client error and a query error with the same type and message give the same alert except for the header, which tells them apart */
  lemma AlertsDifferOnlyInHeader(t: ReportType, source: string, query: string, message: string)
    ensures BuildAlert(ClientException(t, source, message)).alertType ==
            QueryException.BuildAlert(QueryException.QueryException(t, query, message)).alertType
    ensures BuildAlert(ClientException(t, source, message)) !=
            QueryException.BuildAlert(QueryException.QueryException(t, query, message))
  {
  }
}
