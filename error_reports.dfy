/**
 * The reporting of QueryException.java and ClientException.java: both map an error type to a
 * java.util.logging level and to a JavaFX alert type with the same switch. Both switch on an
 * ERROR_CRITICAL constant that the ErrorType enum of this revision does not declare; the type
 * below adds it to the three declared ones.
 */
module ErrorReports {
  datatype ReportType = ErrorCritical | ErrorSevere | ErrorWarning | NoError

  datatype Level = Severe | Warning | Info

  datatype AlertType = Error | WarningAlert | Information

  /** `getLogLevel()`: SEVERE for critical and severe errors, WARNING for warnings, INFO otherwise */
  function LogLevel(t: ReportType): (l: Level)
    ensures l == Severe <==> t in {ErrorCritical, ErrorSevere}
    ensures l == Warning <==> t == ErrorWarning
  {
    match t
    case ErrorCritical => Severe
    case ErrorSevere => Severe
    case ErrorWarning => Warning
    case NoError => Info
  }

  /** The alert type chosen in `buildAlert()`: INFORMATION unless the switch picks ERROR or WARNING */
  function AlertTypeOf(t: ReportType): (a: AlertType)
    ensures a == Error <==> t in {ErrorCritical, ErrorSevere}
    ensures a == WarningAlert <==> t == ErrorWarning
  {
    match t
    case ErrorCritical => Error
    case ErrorSevere => Error
    case ErrorWarning => WarningAlert
    case NoError => Information
  }

  /** The alert and the log level agree: an error alert is logged SEVERE, a warning alert WARNING, an information alert INFO */
  lemma AlertMatchesLogLevel(t: ReportType)
    ensures AlertTypeOf(t) == Error <==> LogLevel(t) == Severe
    ensures AlertTypeOf(t) == WarningAlert <==> LogLevel(t) == Warning
    ensures AlertTypeOf(t) == Information <==> LogLevel(t) == Info
  {
  }

  /** `AlertUtil.createAlert(type, message, header)`: the alert's parts */
  datatype Alert = Alert(alertType: AlertType, message: string, header: string)
}
