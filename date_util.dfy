/**
 * DateUtil.java: conversion of the backend's date-time strings to instants. The two forms
 * are ISO-8601 ("2019-04-01T10:00:00Z") and the older SQL form ("2019-04-01 10:00:00"),
 * which becomes ISO-8601 by turning its space into 'T' and appending the zone 'Z'.
 * MiscUtil.java carries an identical copy of both operations; they are defined once here.
 */
module DateUtil {
  import opened Wrappers
  import Strings

  /** `ensureISOFormat(str)`: `str.replace(" ", "T") + "Z"` */
  function EnsureIsoFormat(s: string): (r: string)
    ensures |r| == |s| + 1 && r[|s|] == 'Z'
    ensures forall i :: 0 <= i < |s| ==> r[i] == (if s[i] == ' ' then 'T' else s[i])
    ensures ' ' !in r
  {
    Strings.ReplaceChar(s, ' ', 'T') + "Z"
  }

  /** An SQL date-time "d t" becomes "d" + "T" + "t" + "Z" when neither half holds a space */
  lemma EnsureIsoFormatSqlForm(date: string, time: string)
    requires ' ' !in date && ' ' !in time
    ensures EnsureIsoFormat(date + " " + time) == date + "T" + time + "Z"
  {
    var R := (x: string) => Strings.ReplaceChar(x, ' ', 'T');
    Strings.ReplaceCharAppend(date + " ", time, ' ', 'T');
    Strings.ReplaceCharAppend(date, " ", ' ', 'T');
    Strings.ReplaceCharAbsent(date, ' ', 'T');
    Strings.ReplaceCharAbsent(time, ' ', 'T');
    assert R(" ") == "T";
    calc {
      EnsureIsoFormat(date + " " + time);
      R(date + " " + time) + "Z";
      (R(date + " ") + R(time)) + "Z";
      ((R(date) + R(" ")) + R(time)) + "Z";
      date + "T" + time + "Z";
    }
  }

  /**
   * `getInstant(s)`. `parse` stands for `Instant.parse`, None for its DateTimeParseException:
   * the string is parsed as it is, and on failure once more after EnsureIsoFormat; a second
   * failure escapes to the caller (None).
   */
  function GetInstant<I>(parse: string -> Option<I>, s: string): (r: Option<I>)
    ensures parse(s).Some? ==> r == parse(s)
    ensures parse(s).None? ==> r == parse(EnsureIsoFormat(s))
  {
    match parse(s)
    case Some(instant) => Some(instant)
    case None => parse(EnsureIsoFormat(s))
  }

  /**
   * What the fallback is for: an SQL date-time "d t" that `Instant.parse` rejects is read as
   * the ISO-8601 instant "dTtZ", and getInstant fails on it only when that ISO form is
   * rejected as well.
   */
  lemma GetInstantSqlForm<I>(parse: string -> Option<I>, date: string, time: string)
    requires ' ' !in date && ' ' !in time
    requires parse(date + " " + time).None?
    ensures GetInstant(parse, date + " " + time) == parse(date + "T" + time + "Z")
    ensures GetInstant(parse, date + " " + time).None? <==> parse(date + "T" + time + "Z").None?
  {
    EnsureIsoFormatSqlForm(date, time);
  }
}
