/**
 * `Program.install()` (Program.java): the loop that downloads each file of the program's
 * manifest into its folder. The backend is abstract: the GET_PROGRAM_FILES answer is one of
 * three cases (no response, a response without contents, the files array) and
 * `fetch(id, remotePath)` stands for `BackendHandler.getProgramFile`, None for its IOException. The file system is a map from
 * path to bytes plus the set of created directories.
 */
module ProgramInstall {
  import opened Wrappers
  import opened Json
  import FileInfo
  import Program
  import Paths

  /** The program's folder: `PROGRAMS_FOLDER + separator + slug` */
  function ProgramFolder(programsFolder: string, p: Program.Program, sep: char): string {
    programsFolder + [sep] + p.slug
  }

  /** The local effect of one manifest entry: the file written, the directory made (if any), the remote name fetched */
  datatype Write = Write(path: string, dir: Option<string>, remote: string)

  /** Reading one manifest entry: `getJSONObject(i)` and `FileInfo.fromJSON`, either of which may throw (None) */
  function Plan(entry: Json, folder: string, sep: char): (r: Option<Write>)
    ensures r.Some? <==> entry.JObject? && FileInfo.FromJson(entry.fields).Some?
    ensures r.Some? ==> var fi := FileInfo.FromJson(entry.fields).value;
      && r.value.path == Paths.Resolve(folder, FileInfo.FilePathAndName(fi, sep), sep)
      && r.value.remote == FileInfo.RemoteFilePathAndName(fi)
      && (r.value.dir.Some? <==> fi.filePath != [])
      && (r.value.dir.Some? ==> r.value.dir.value == Paths.Resolve(folder, FileInfo.FilePath(fi, sep), sep))
  {
    var obj :- AsObject(entry);
    var fi :- FileInfo.FromJson(obj);
    var path := FileInfo.FilePath(fi, sep);
    FileInfo.FilePathIsReplacement(fi, sep);
    Some(Write(
      Paths.Resolve(folder, FileInfo.FilePathAndName(fi, sep), sep),
      if path != [] then Some(Paths.Resolve(folder, path, sep)) else None,
      FileInfo.RemoteFilePathAndName(fi)))
  }

  datatype Disk = Disk(files: map<string, seq<bv8>>, dirs: set<string>)

  /** The file system after a run, and whether the run got to its end without an exception */
  datatype Outcome = Outcome(disk: Disk, ok: bool)

  /** Each entry read on its own; reading has no effect, so it may be done ahead of the loop */
  function Plans(items: seq<Json>, folder: string, sep: char): (r: seq<Option<Write>>)
    ensures |r| == |items| && forall i :: 0 <= i < |items| ==> r[i] == Plan(items[i], folder, sep)
  {
    seq(|items|, i requires 0 <= i < |items| => Plan(items[i], folder, sep))
  }

  /** One iteration of the loop: stop on an unreadable entry, else make its directory, fetch its bytes and write them over whatever the file held */
  function EntryStep(d: Disk, id: int, plan: Option<Write>, fetch: (int, string) -> Option<seq<bv8>>): Outcome {
    match plan
    case None => Outcome(d, false)
    case Some(w) =>
      var dirs := if w.dir.Some? then d.dirs + {w.dir.value} else d.dirs;
      match fetch(id, w.remote)
      case None => Outcome(Disk(d.files, dirs), false)
      case Some(bytes) => Outcome(Disk(d.files[w.path := bytes], dirs), true)
  }

  /** The loop over the entries in order, stopping at the first exception with what was done so far */
  function Entries(d: Disk, id: int, plans: seq<Option<Write>>, fetch: (int, string) -> Option<seq<bv8>>): Outcome
    decreases |plans|
  {
    if plans == [] then Outcome(d, true)
    else
      var prev := Entries(d, id, plans[..|plans| - 1], fetch);
      if !prev.ok then prev else EntryStep(prev.disk, id, plans[|plans| - 1], fetch)
  }

  /**
   * What `BackendHandler.getQueryResponse(GET_PROGRAM_FILES, ...)` gives install(): null (its
   * IOException or MalformedURLException), a response whose contents are null, or the files
   */
  datatype Answer = NoResponse | NoContents | Files(items: seq<Json>)

  /**
   * `install()`: a null response throws at `getContents()` before anything is made; otherwise
   * the program folder is made, and null contents throw at `length()` before any file is written
   */
  function InstallOutcome(d: Disk, p: Program.Program, programsFolder: string, sep: char,
                          answer: Answer, fetch: (int, string) -> Option<seq<bv8>>): Outcome
  {
    var folder := ProgramFolder(programsFolder, p, sep);
    var made := Disk(d.files, d.dirs + {folder});
    match answer
    case NoResponse => Outcome(d, false)
    case NoContents => Outcome(made, false)
    case Files(items) => Entries(made, p.id, Plans(items, folder, sep), fetch)
  }

  /** Every entry was read and its bytes fetched */
  predicate AllFetchable(id: int, plans: seq<Option<Write>>, fetch: (int, string) -> Option<seq<bv8>>) {
    forall i :: 0 <= i < |plans| ==> plans[i].Some? && fetch(id, plans[i].value.remote).Some?
  }

  /** Once a run has stopped, the later entries change nothing */
  lemma {:induction false} EntriesStuck(d: Disk, id: int, plans: seq<Option<Write>>, fetch: (int, string) -> Option<seq<bv8>>, k: nat)
    requires k <= |plans| && !Entries(d, id, plans[..k], fetch).ok
    ensures Entries(d, id, plans, fetch) == Entries(d, id, plans[..k], fetch)
    decreases |plans|
  {
    if k < |plans| {
      var front := plans[..|plans| - 1];
      assert front[..k] == plans[..k];
      EntriesStuck(d, id, front, fetch, k);
    } else {
      assert plans[..k] == plans;
    }
  }

  /** The directories a normal run makes: one per entry whose path is non-empty */
  function MadeDirs(plans: seq<Option<Write>>): set<string>
    requires forall i :: 0 <= i < |plans| ==> plans[i].Some?
  {
    set i | 0 <= i < |plans| && plans[i].value.dir.Some? :: plans[i].value.dir.value
  }

  /** The files a normal run writes: one per entry */
  function WrittenFiles(plans: seq<Option<Write>>): set<string>
    requires forall i :: 0 <= i < |plans| ==> plans[i].Some?
  {
    set i | 0 <= i < |plans| :: plans[i].value.path
  }

  /**
   * A run ends normally exactly when every entry is read and fetched; it then has made each
   * entry's directory and written each entry's file, and has touched no other file
   */
  lemma {:induction false} EntriesDone(d: Disk, id: int, plans: seq<Option<Write>>, fetch: (int, string) -> Option<seq<bv8>>)
    ensures Entries(d, id, plans, fetch).ok <==> AllFetchable(id, plans, fetch)
    ensures AllFetchable(id, plans, fetch) ==> var out := Entries(d, id, plans, fetch).disk;
      && out.dirs == d.dirs + MadeDirs(plans)
      && out.files.Keys == d.files.Keys + WrittenFiles(plans)
      && forall k :: k in d.files && k !in WrittenFiles(plans) ==> out.files[k] == d.files[k]
    decreases |plans|
  {
    if plans != [] {
      var n := |plans| - 1;
      var front := plans[..n];
      EntriesDone(d, id, front, fetch);
      if AllFetchable(id, plans, fetch) {
        assert AllFetchable(id, front, fetch);
        var w := plans[n].value;
        assert MadeDirs(plans) == MadeDirs(front) + (if w.dir.Some? then {w.dir.value} else {});
        assert WrittenFiles(plans) == WrittenFiles(front) + {w.path};
      } else if AllFetchable(id, front, fetch) {
        var i :| 0 <= i < |plans| && !(plans[i].Some? && fetch(id, plans[i].value.remote).Some?);
        assert i == n;
      }
    }
  }

  /**
   * Last write wins: after a normal run, the file of each entry holds the bytes fetched for
   * that entry's remote name, unless a later entry writes the same local file
   */
  lemma {:induction false} EntriesLastWriteWins(d: Disk, id: int, plans: seq<Option<Write>>, fetch: (int, string) -> Option<seq<bv8>>, i: nat)
    requires AllFetchable(id, plans, fetch)
    requires i < |plans|
    requires forall j :: i < j < |plans| ==> plans[j].value.path != plans[i].value.path
    ensures var out := Entries(d, id, plans, fetch).disk;
      plans[i].value.path in out.files && out.files[plans[i].value.path] == fetch(id, plans[i].value.remote).value
    decreases |plans|
  {
    var n := |plans| - 1;
    var front := plans[..n];
    assert AllFetchable(id, front, fetch);
    EntriesDone(d, id, front, fetch);
    if i < n {
      EntriesLastWriteWins(d, id, front, fetch, i);
    }
  }

  /**
   * A run that stops does so at one entry k: every entry before it was read and fetched, and
   * the state is what the loop left after them plus entry k's partial work, nothing after it
   */
  lemma {:induction false} EntriesFailure(d: Disk, id: int, plans: seq<Option<Write>>, fetch: (int, string) -> Option<seq<bv8>>)
    requires !Entries(d, id, plans, fetch).ok
    ensures exists k :: (0 <= k < |plans| && AllFetchable(id, plans[..k], fetch) &&
      Entries(d, id, plans, fetch) == EntryStep(Entries(d, id, plans[..k], fetch).disk, id, plans[k], fetch))
    decreases |plans|
  {
    var n := |plans| - 1;
    var front := plans[..n];
    EntriesDone(d, id, front, fetch);
    if !Entries(d, id, front, fetch).ok {
      EntriesFailure(d, id, front, fetch);
      var k :| 0 <= k < |front| && AllFetchable(id, front[..k], fetch) &&
        Entries(d, id, front, fetch) == EntryStep(Entries(d, id, front[..k], fetch).disk, id, front[k], fetch);
      assert front[..k] == plans[..k] && front[k] == plans[k];
    }
  }

  /**
   * install() in each case of the answer: no response leaves the disk as it was; no contents
   * leaves only the program folder made; with the files, the run ends normally exactly when
   * every entry is read and fetched, and then has made the folder and the entries' directories,
   * written the entries' files and left every other file as it was
   */
  lemma InstallEffect(d: Disk, p: Program.Program, programsFolder: string, sep: char,
                      answer: Answer, fetch: (int, string) -> Option<seq<bv8>>)
    ensures answer.NoResponse? ==> InstallOutcome(d, p, programsFolder, sep, answer, fetch) == Outcome(d, false)
    ensures answer.NoContents? ==>
      InstallOutcome(d, p, programsFolder, sep, answer, fetch) == Outcome(Disk(d.files, d.dirs + {ProgramFolder(programsFolder, p, sep)}), false)
    ensures answer.Files? ==> var plans := Plans(answer.items, ProgramFolder(programsFolder, p, sep), sep);
      var r := InstallOutcome(d, p, programsFolder, sep, answer, fetch);
      && (r.ok <==> AllFetchable(p.id, plans, fetch))
      && (r.ok ==> && r.disk.dirs == d.dirs + {ProgramFolder(programsFolder, p, sep)} + MadeDirs(plans)
                   && r.disk.files.Keys == d.files.Keys + WrittenFiles(plans)
                   && forall k :: k in d.files && k !in WrittenFiles(plans) ==> r.disk.files[k] == d.files[k])
  {
    if answer.Files? {
      var folder := ProgramFolder(programsFolder, p, sep);
      EntriesDone(Disk(d.files, d.dirs + {folder}), p.id, Plans(answer.items, folder, sep), fetch);
    }
  }

  class FileSystem {
    var files: map<string, seq<bv8>>
    var dirs: set<string>

    constructor (files: map<string, seq<bv8>>, dirs: set<string>)
      ensures this.files == files && this.dirs == dirs
    {
      this.files := files;
      this.dirs := dirs;
    }
  }

  /** One iteration of install's loop on fs: read the entry, make its directory, fetch and write its file */
  method InstallEntry(fs: FileSystem, folder: string, id: int, entry: Json, fetch: (int, string) -> Option<seq<bv8>>, sep: char)
      returns (ok: bool)
    modifies fs
    ensures Outcome(Disk(fs.files, fs.dirs), ok) == EntryStep(Disk(old(fs.files), old(fs.dirs)), id, Plan(entry, folder, sep), fetch)
  {
    var obj := AsObject(entry);
    if obj.None? {
      return false;
    }
    var fileInfo := FileInfo.FromJson(obj.value);
    if fileInfo.None? {
      return false;
    }
    var fi := fileInfo.value;
    var filePath := FileInfo.FilePath(fi, sep);
    var filePathAndName := FileInfo.FilePathAndName(fi, sep);
    var remoteFilePathAndName := FileInfo.RemoteFilePathAndName(fi);
    assert Plan(entry, folder, sep) == Some(Write(Paths.Resolve(folder, filePathAndName, sep),
      if filePath != [] then Some(Paths.Resolve(folder, filePath, sep)) else None, remoteFilePathAndName));
    if filePath != [] {
      fs.dirs := fs.dirs + {Paths.Resolve(folder, filePath, sep)};
    }
    var bytes := fetch(id, remoteFilePathAndName);
    if bytes.None? {
      return false;
    }
    fs.files := fs.files[Paths.Resolve(folder, filePathAndName, sep) := bytes.value];
    return true;
  }

  /** `install()` on the file system fs; ok is false where the Java method throws */
  method Install(p: Program.Program, programsFolder: string, sep: char, answer: Answer,
                 fetch: (int, string) -> Option<seq<bv8>>, fs: FileSystem) returns (ok: bool)
    modifies fs
    ensures Outcome(Disk(fs.files, fs.dirs), ok) == InstallOutcome(Disk(old(fs.files), old(fs.dirs)), p, programsFolder, sep, answer, fetch)
  {
    if answer.NoResponse? {
      return false;
    }
    var folder := ProgramFolder(programsFolder, p, sep);
    fs.dirs := fs.dirs + {folder};
    if answer.NoContents? {
      return false;
    }
    var items := answer.items;
    ghost var start := Disk(fs.files, fs.dirs);
    ghost var plans := Plans(items, folder, sep);
    assert InstallOutcome(Disk(old(fs.files), old(fs.dirs)), p, programsFolder, sep, answer, fetch) == Entries(start, p.id, plans, fetch);
    for i := 0 to |items|
      invariant Entries(start, p.id, plans[..i], fetch) == Outcome(Disk(fs.files, fs.dirs), true)
    {
      assert plans[..i + 1][..i] == plans[..i];
      ok := InstallEntry(fs, folder, p.id, items[i], fetch, sep);
      if !ok {
        EntriesStuck(start, p.id, plans, fetch, i + 1);
        return false;
      }
    }
    assert plans[..|items|] == plans;
    return true;
  }
}
