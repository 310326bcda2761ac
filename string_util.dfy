/** StringUtil.java: string tests used by the scenes and handlers. A Java null string is None. */
module StringUtil {
  import opened Wrappers

  /** `isNullOrEmpty(s)` */
  predicate IsNullOrEmpty(s: Option<string>) {
    s.None? || s.value == []
  }

  /** null and "" are both reported; any string holding a character is not */
  lemma IsNullOrEmptyCases(s: string)
    ensures IsNullOrEmpty(None)
    ensures IsNullOrEmpty(Some(s)) <==> |s| == 0
  {
  }
}
