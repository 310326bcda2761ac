/**
 * ChangelogEntry.java: one version's entry in a program's or the client's changelog. The
 * release time may be null (None); org.json drops a key whose value is null, and a present
 * release time is written as the text of the timestamp.
 */
module ChangelogEntry {
  import opened Wrappers
  import opened Json
  import opened Timestamps

  datatype ChangelogEntry = ChangelogEntry(version: string, content: string, releaseTime: Option<Timestamp>)

  /** `toJSON()` */
  function ToJson(e: ChangelogEntry): (o: JsonObject)
    ensures "release_time" in o <==> e.releaseTime.Some?
    ensures o.Keys - {"release_time"} == {"version", "content"}
  {
    var base := map["version" := JString(e.version), "content" := JString(e.content)];
    match e.releaseTime
    case None => base
    case Some(t) => base["release_time" := JString(ToString(t))]
  }

  /** The release time as fromJSON reads it: null when absent */
  function ReleaseTimeOr(o: JsonObject): Option<Option<Timestamp>> {
    if "release_time" in o then
      match GetString(o, "release_time")
      case None => None
      case Some(s) => Some(Some(ValueOf(s)))
    else Some(None)
  }

  /** `fromJSON(json)`: each present key is read, each missing one keeps its default; a value of the wrong type throws (None) */
  function FromJson(o: JsonObject): Option<ChangelogEntry> {
    var version :- StringOr(o, "version", "");
    var content :- StringOr(o, "content", "");
    var releaseTime :- ReleaseTimeOr(o);
    Some(ChangelogEntry(version, content, releaseTime))
  }

  /** Reading back what toJSON wrote gives the same entry, with or without a release time */
  lemma RoundTrip(e: ChangelogEntry)
    ensures FromJson(ToJson(e)) == Some(e)
  {
  }

  /** fromJSON throws exactly when a present key holds a value of the wrong type; an absent key gives "" or no release time */
  lemma FromJsonResult(o: JsonObject)
    ensures FromJson(o).Some? <==>
      StringOrAbsent(o, "version") && StringOrAbsent(o, "content") && StringOrAbsent(o, "release_time")
    ensures FromJson(o).Some? ==>
      && ("version" !in o ==> FromJson(o).value.version == "")
      && ("content" !in o ==> FromJson(o).value.content == "")
      && (FromJson(o).value.releaseTime.None? <==> "release_time" !in o)
  {
  }
}
