/**
 * FileInfo.java: the description of one file of a program version, as the backend sends it.
 * A remote path always uses '/'; the local path uses the platform's separator, a parameter
 * here. The status and the update time may be null (None).
 */
module FileInfo {
  import opened Wrappers
  import opened Json
  import Strings
  import StringUtil
  import opened Timestamps

  datatype FileStatus = New | Modified | Removed

  /** `getStatusCode()` */
  function StatusCode(s: FileStatus): int {
    match s
    case New => 1
    case Modified => 2
    case Removed => 3
  }

  /** `getStatusFromCode(code)`: the status with that code, or null */
  function StatusFromCode(code: int): (r: Option<FileStatus>)
    ensures r.Some? ==> StatusCode(r.value) == code
    ensures r.None? <==> forall s: FileStatus :: StatusCode(s) != code
  {
    if code == 1 then Some(New)
    else if code == 2 then Some(Modified)
    else if code == 3 then Some(Removed)
    else None
  }

  /** Every status is found again from its code, and no two statuses share a code */
  lemma StatusCodeRoundTrip(s: FileStatus, t: FileStatus)
    ensures StatusFromCode(StatusCode(s)) == Some(s)
    ensures StatusCode(s) == StatusCode(t) ==> s == t
  {
  }

  datatype FileInfo = FileInfo(
    fileName: string,
    filePath: string,
    checksum: string,
    status: Option<FileStatus>,
    updateVersion: string,
    updateTime: Option<Timestamp>)

  /** `getFilePath()`: the remote path with each '/' replaced by the separator, when it holds one */
  function FilePath(f: FileInfo, sep: char): string {
    if '/' in f.filePath then Strings.ReplaceChar(f.filePath, '/', sep) else f.filePath
  }

  /** `getRemoteFilePathAndName()`: "path/name", or the name alone when the path is empty */
  function RemoteFilePathAndName(f: FileInfo): string {
    if StringUtil.IsNullOrEmpty(Some(f.filePath)) then f.fileName else f.filePath + "/" + f.fileName
  }

  /** `getFilePathAndName()`: the local path, the separator and the name, or the name alone when the path is empty */
  function FilePathAndName(f: FileInfo, sep: char): string {
    if StringUtil.IsNullOrEmpty(Some(f.filePath)) then f.fileName else FilePath(f, sep) + [sep] + f.fileName
  }

  /** The local path is the remote path with every '/' turned into the separator; on a '/' platform they coincide */
  lemma FilePathIsReplacement(f: FileInfo, sep: char)
    ensures FilePath(f, sep) == Strings.ReplaceChar(f.filePath, '/', sep)
    ensures FilePath(f, '/') == f.filePath
    ensures '/' !in FilePath(f, sep) || sep == '/'
  {
    if '/' !in f.filePath {
      Strings.ReplaceCharAbsent(f.filePath, '/', sep);
    }
    assert Strings.ReplaceChar(f.filePath, '/', '/') == f.filePath;
  }

  /**
   * The two joined paths name the same file: on a '/' platform they are equal, and elsewhere
   * the local one is the remote one with every '/' replaced, as long as the name itself holds no '/'
   */
  lemma PathAndNameAgree(f: FileInfo, sep: char)
    ensures FilePathAndName(f, '/') == RemoteFilePathAndName(f)
    ensures '/' !in f.fileName ==>
      FilePathAndName(f, sep) == Strings.ReplaceChar(RemoteFilePathAndName(f), '/', sep)
  {
    FilePathIsReplacement(f, sep);
    FilePathIsReplacement(f, '/');
    if '/' !in f.fileName {
      Strings.ReplaceCharAbsent(f.fileName, '/', sep);
      if f.filePath != [] {
        Strings.ReplaceCharAppend(f.filePath + "/", f.fileName, '/', sep);
        Strings.ReplaceCharAppend(f.filePath, "/", '/', sep);
        assert Strings.ReplaceChar("/", '/', sep) == [sep];
      }
    }
  }

  /** `toJSON()`: six keys; a null status or update time throws a NullPointerException (None) */
  function ToJson(f: FileInfo): (r: Option<JsonObject>)
    ensures r.Some? <==> f.status.Some? && f.updateTime.Some?
    ensures r.Some? ==> r.value.Keys == {"file_name", "file_path", "checksum", "status", "update_version", "update_time"}
  {
    if f.status.None? || f.updateTime.None? then None
    else Some(map[
      "file_name" := JString(f.fileName),
      "file_path" := JString(f.filePath),
      "checksum" := JString(f.checksum),
      "status" := JInt(StatusCode(f.status.value)),
      "update_version" := JString(f.updateVersion),
      "update_time" := JString(ToString(f.updateTime.value))])
  }

  /** The status as fromJSON reads it: NEW when absent, the status with the stored code (or null) when present */
  function StatusOr(o: JsonObject): Option<Option<FileStatus>> {
    if "status" in o then
      match GetInt(o, "status")
      case None => None
      case Some(code) => Some(StatusFromCode(code))
    else Some(Some(New))
  }

  /** The update time as fromJSON reads it: null when absent */
  function UpdateTimeOr(o: JsonObject): Option<Option<Timestamp>> {
    if "update_time" in o then
      match GetString(o, "update_time")
      case None => None
      case Some(s) => Some(Some(ValueOf(s)))
    else Some(None)
  }

  /** `fromJSON(json)`: each present key is read, each missing one keeps its default; a value of the wrong type throws (None) */
  function FromJson(o: JsonObject): Option<FileInfo> {
    var fileName :- StringOr(o, "file_name", "");
    var filePath :- StringOr(o, "file_path", "");
    var checksum :- StringOr(o, "checksum", "");
    var status :- StatusOr(o);
    var updateVersion :- StringOr(o, "update_version", "");
    var updateTime :- UpdateTimeOr(o);
    Some(FileInfo(fileName, filePath, checksum, status, updateVersion, updateTime))
  }

  /** Reading back what toJSON wrote gives the same file information */
  lemma RoundTrip(f: FileInfo)
    requires ToJson(f).Some?
    ensures FromJson(ToJson(f).value) == Some(f)
  {
    StatusCodeRoundTrip(f.status.value, f.status.value);
  }

  /** An empty object gives empty strings, status NEW and no update time */
  lemma FromJsonDefaults()
    ensures FromJson(map[]) == Some(FileInfo("", "", "", Some(New), "", None))
  {
  }

  /**
   * fromJSON throws exactly when a present key holds a value of the wrong type; a status code
   * that names no status gives a null status, and such a file information cannot be written back
   */
  lemma FromJsonResult(o: JsonObject)
    ensures FromJson(o).Some? <==>
      && StringOrAbsent(o, "file_name") && StringOrAbsent(o, "file_path") && StringOrAbsent(o, "checksum")
      && IntOrAbsent(o, "status") && StringOrAbsent(o, "update_version") && StringOrAbsent(o, "update_time")
    ensures FromJson(o).Some? && "status" in o ==> FromJson(o).value.status == StatusFromCode(o["status"].i)
    ensures FromJson(o).Some? && "status" in o && o["status"].i !in {1, 2, 3} ==> ToJson(FromJson(o).value).None?
  {
  }
}
