/**
 * InstalledProgram.java: a program together with the list of files that installing it
 * wrote. Its JSON form is the program's with one more key, "files"; it is always read back
 * against the installed partition of the registry.
 */
module InstalledProgram {
  import opened Wrappers
  import opened Json
  import FileInfo
  import Program

  datatype InstalledProgram = InstalledProgram(program: Program.Program, files: seq<FileInfo.FileInfo>)

  /** `getId()`, inherited from the program */
  function Id(ip: InstalledProgram): int {
    ip.program.id
  }

  /** `install(program, files)`: the program with the files it was installed with */
  function Install(program: Program.Program, files: seq<FileInfo.FileInfo>): (ip: InstalledProgram)
    ensures ip.program == program && ip.files == files
  {
    InstalledProgram(program, files)
  }

  /** The loop of toJSON that puts each file's JSON; a file that cannot be written throws (None) */
  function FilesJson(files: seq<FileInfo.FileInfo>): (r: Option<seq<Json>>)
    ensures r.Some? <==> forall i :: 0 <= i < |files| ==> FileInfo.ToJson(files[i]).Some?
    ensures r.Some? ==> (|r.value| == |files| &&
      forall i :: 0 <= i < |files| ==> r.value[i] == JObject(FileInfo.ToJson(files[i]).value))
  {
    if files == [] then Some([])
    else
      match FileInfo.ToJson(files[0])
      case None => None
      case Some(o) =>
        match FilesJson(files[1..])
        case None => None
        case Some(rest) => Some([JObject(o)] + rest)
  }

  /** `toJSON()`: the program's object plus "files", one element per file in list order */
  function ToJson(ip: InstalledProgram): (r: Option<JsonObject>)
    ensures r.Some? <==> Program.ToJson(ip.program).Some? && FilesJson(ip.files).Some?
    ensures r.Some? ==> r.value.Keys == Program.ToJson(ip.program).value.Keys + {"files"}
    ensures r.Some? ==> r.value - {"files"} == Program.ToJson(ip.program).value - {"files"}
    ensures r.Some? ==> r.value["files"] == JArray(FilesJson(ip.files).value)
  {
    var json :- Program.ToJson(ip.program);
    var jsonFiles :- FilesJson(ip.files);
    Some(json["files" := JArray(jsonFiles)])
  }

  /** The loop of fromJSON over the "files" array: each element must be an object FileInfo.fromJSON accepts */
  function ParseFiles(items: seq<Json>): (r: Option<seq<FileInfo.FileInfo>>)
    ensures r.Some? <==> forall i :: 0 <= i < |items| ==> items[i].JObject? && FileInfo.FromJson(items[i].fields).Some?
    ensures r.Some? ==> (|r.value| == |items| &&
      forall i :: 0 <= i < |items| ==> Some(r.value[i]) == FileInfo.FromJson(items[i].fields))
  {
    if items == [] then Some([])
    else
      match AsObject(items[0])
      case None => None
      case Some(obj) =>
        match FileInfo.FromJson(obj)
        case None => None
        case Some(fi) =>
          match ParseFiles(items[1..])
          case None => None
          case Some(rest) => Some([fi] + rest)
  }

  /** The files as fromJSON reads them: none when the key is absent */
  function FilesOr(o: JsonObject): Option<seq<FileInfo.FileInfo>> {
    if "files" in o then
      match GetArray(o, "files")
      case None => None
      case Some(items) => ParseFiles(items)
    else Some([])
  }

  /** `fromJSON(json)`: the program part read with installed = true, then the files */
  function FromJson(o: JsonObject, reg: Program.Registry): Option<InstalledProgram> {
    var program :- Program.FromJson(o, true, reg);
    var files :- FilesOr(o);
    Some(InstalledProgram(program, files))
  }

  /** fromJSON reads the program part as Program.fromJSON does against the installed partition, and no "files" key means no files */
  lemma FromJsonParts(o: JsonObject, reg: Program.Registry)
    requires FromJson(o, reg).Some?
    ensures Some(FromJson(o, reg).value.program) == Program.FromJson(o, true, reg)
    ensures FromJson(o, reg).value.program.installed
    ensures "files" !in o ==> FromJson(o, reg).value.files == []
  {
  }

  /** Reading back the files toJSON wrote gives the same files */
  lemma FilesRoundTrip(files: seq<FileInfo.FileInfo>)
    requires FilesJson(files).Some?
    ensures ParseFiles(FilesJson(files).value) == Some(files)
  {
    var items := FilesJson(files).value;
    forall i | 0 <= i < |files| ensures FileInfo.FromJson(items[i].fields) == Some(files[i]) {
      FileInfo.RoundTrip(files[i]);
    }
    assert ParseFiles(items).value == files;
  }

  /**
   * Reading back what toJSON wrote gives the same program, marked installed, and the same
   * files, when the category and the dependencies are registered first under their ids in the
   * installed partition
   */
  lemma RoundTrip(ip: InstalledProgram, reg: Program.Registry)
    requires ToJson(ip).Some?
    requires Program.LookupCategory(reg, ip.program.category.value.id, true) == ip.program.category
    requires forall i :: 0 <= i < |ip.program.dependencies| ==>
      Program.LookupDependency(reg, ip.program.dependencies[i].value.id, true) == ip.program.dependencies[i]
    ensures FromJson(ToJson(ip).value, reg) == Some(InstalledProgram(ip.program.(installed := true), ip.files))
  {
    var base := Program.ToJson(ip.program).value;
    var o := ToJson(ip).value;
    Program.RoundTrip(ip.program, true, reg);
    Program.FromJsonIgnoresOtherKeys(base, "files", o["files"], true, reg);
    FilesRoundTrip(ip.files);
  }
}
