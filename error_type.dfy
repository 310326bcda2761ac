/** ErrorType.java: the kinds of error a query response reports, each with its wire code. */
module ErrorType {

  datatype ErrorType = ErrorSevere | ErrorWarning | NoError

  /** `getErrorTypeCode()` */
  function Code(e: ErrorType): int {
    match e
    case ErrorSevere => 1
    case ErrorWarning => 2
    case NoError => -1
  }

  /** `fromCode(code)`: the type with that code; any other code is NONE */
  function FromCode(code: int): (r: ErrorType)
    ensures r != NoError ==> Code(r) == code
    ensures r == NoError <==> code != 1 && code != 2
  {
    if code == 1 then ErrorSevere else if code == 2 then ErrorWarning else NoError
  }

  /** Every type is found again from its code, and the codes are distinct */
  lemma CodeRoundTrip(e: ErrorType, f: ErrorType)
    ensures FromCode(Code(e)) == e
    ensures Code(e) == Code(f) ==> e == f
  {
  }
}
