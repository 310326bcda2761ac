/**
 * java.sql.Timestamp, kept as the text `Timestamp.toString()` prints and `Timestamp.valueOf`
 * reads; the calendar value behind the text is not modelled.
 */
module Timestamps {

  datatype Timestamp = Timestamp(text: string)

  /** `Timestamp.toString()` */
  function ToString(t: Timestamp): string {
    t.text
  }

  /** `Timestamp.valueOf(s)` */
  function ValueOf(s: string): Timestamp {
    Timestamp(s)
  }
}
