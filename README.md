# Code Speak Distribution Client: a Dafny model of its registry and data layer

The Code Speak Distribution Client is a Java desktop program. It lists the programs of a
distribution, installs them with their category and dependencies, and records what is
installed in a JSON data file. This project models the client's registry and its data
layer in Dafny and proves properties about them.

The registry is `DataHandler` together with the older `DataManager` and the four `*Handler`
classes. Its central invariant is that the installed categories and dependencies are exactly
those the installed programs refer to, each one listed once. The model shows that
`installProgram` and `uninstallProgram` preserve this invariant. It also shows that
uninstalling a program just installed puts the installed partition back as it was.

Also modelled:
- the entity values (`Category`, `Dependency`, `Program`, `InstalledProgram`, `FileInfo`,
  `ChangelogEntry`, `Settings`, the query responses) with their JSON mapping and round trips;
- the utilities `MiscUtil`, `DateUtil` and `StringUtil`;
- the enum tables `DependencyFlags`, `ErrorType` and `QueryTypes`;
- the exceptions `ClientException` and `QueryException`.

Modelling conventions:
- A Java `null`, and a call that throws, are `Option.None`.
- JSON is an abstract datatype (`Json.Json`): null, Boolean, integer, string, array, or object
  as a map. A typed read such as `getInt` or `getString` fails on a value of another type, as
  org.json throws `JSONException`. `put(key, null)` removes the key.
- Static lists that the source appends to and removes from in place are `seq` fields of a
  class. The methods reassign them under `modifies` clauses. Lookups are loops proved equal
  to specification functions in module `IdLists`.
- `getNonExistentPath` is an imperative search over a finite set of existing paths. Its
  termination measure is the number of existing paths not yet tried.
- `Program.install` is an imperative loop over an abstract file system (class
  `ProgramInstall.FileSystem`). The backend fetch is a function parameter.
- The host path separator is a parameter wherever the source uses `File.separator`.

The files come from different revisions of the program and do not compile together.
`DataHandler` calls a `Program` API that `Program.java` does not have:
- a `Map<Dependency,Long>`-valued `getDependencies()`;
- `uninstall()`;
- `setDetached`.

So `DataHandler` works on its own program view, `Registry.Program`, which holds:
- the id;
- the category;
- the key set of the dependency map, in iteration order;
- the detached flag.

This view compares programs by id, as `Program.hashCode` does. The equality that
`Program.java` itself defines is recorded under "## Findings". With that equality as
written, `markDetachedPrograms` would mark every installed program detached,
`installedPrograms.remove(program)` would remove nothing, and `getPrograms` would list
installed programs twice. The model follows the id equality that the registry evidently
relies on.

Other abstractions in DataHandler:
- `program.install()` and `program.uninstall()` are boolean outcomes passed in. True means
  the call returned; false means it threw.
- A program's own JSON form is a pair of parameters: `encode` stands for `toJSON()` and
  `decode` for `Program.fromJSON(obj, true)`. `decode` is given the installed categories and
  dependencies that it resolves the stored ids against. During an import these are the lists
  that the categories and dependencies blocks have just extended.

## Model

| member | source | states |
|---|---|---|
| Category.ToJson | src/org/codespeak/distribution/client/data/Category.java:60-69 | toJSON writes exactly the keys id, slug, name and description |
| Category.RoundTrip | src/org/codespeak/distribution/client/data/Category.java:60-115 | fromJSON(toJSON(c)) gives back c: same id, slug, name and description |
| Category.FromJsonDefaults | src/org/codespeak/distribution/client/data/Category.java:92-115 | an object lacking every key gives id 0 and empty strings |
| Category.FromJsonResult | src/org/codespeak/distribution/client/data/Category.java:92-115 | fromJSON throws exactly when a present key holds a value of the wrong type; otherwise each present value is copied |
| Category.Equals | src/org/codespeak/distribution/client/data/Category.java:76-85 | equals holds iff the other object is a non-null Category with the same id |
| Category.EqualsIsEquivalence | src/org/codespeak/distribution/client/data/Category.java:76-85 | equals is reflexive, symmetric and transitive, and false for null |
| Category.EqualsAgreesWithHashCode | src/org/codespeak/distribution/client/data/Category.java:71-85 | equal categories have equal hash codes |
| Dependency.ToJson | src/org/codespeak/distribution/client/data/Dependency.java:60-69 | toJSON writes exactly the keys id, name, description and url |
| Dependency.RoundTrip | src/org/codespeak/distribution/client/data/Dependency.java:60-115 | fromJSON(toJSON(d)) gives back d: same id, name, description and url |
| Dependency.FromJsonDefaults | src/org/codespeak/distribution/client/data/Dependency.java:92-115 | an object lacking every key gives id 0 and empty strings |
| Dependency.FromJsonResult | src/org/codespeak/distribution/client/data/Dependency.java:92-115 | fromJSON throws exactly when a present key holds a value of the wrong type; otherwise each present value is copied |
| Dependency.Equals | src/org/codespeak/distribution/client/data/Dependency.java:76-85 | equals holds iff the other object is a non-null Dependency with the same id |
| Dependency.EqualsIsEquivalence | src/org/codespeak/distribution/client/data/Dependency.java:76-85 | equals is reflexive, symmetric and transitive, and false for null |
| Dependency.EqualsAgreesWithHashCode | src/org/codespeak/distribution/client/data/Dependency.java:71-85 | equal dependencies have equal hash codes |
| DependencyFlags.FlagBits | src/org/codespeak/distribution/client/data/DependencyFlags.java:9-16 | DISPLAY_ON_CLIENT has the bit 1 and DISPLAY_ON_FRONTEND the bit 2 |
| DependencyFlags.FlagBitIsShift | src/org/codespeak/distribution/client/data/DependencyFlags.java:15 | the bit of flag n is 1 << (n - 1) |
| DependencyFlags.InIsBitTest | src/org/codespeak/distribution/client/data/DependencyFlags.java:31-33 | in(flags) holds iff bit n - 1 of flags is set |
| DependencyFlags.InSetAndClear | src/org/codespeak/distribution/client/data/DependencyFlags.java:31-33 | no flag is in 0; every flag is in f with its bit set and not in f with its bit cleared |
| DependencyFlags.SetFrontendKeepsClient | src/org/codespeak/distribution/client/data/DependencyFlags.java:31-33 | setting the frontend bit does not change the client flag's answer |
| DependencyFlags.ClearFrontendKeepsClient | src/org/codespeak/distribution/client/data/DependencyFlags.java:31-33 | clearing the frontend bit does not change the client flag's answer |
| DependencyFlags.ClientIgnoresFrontend | src/org/codespeak/distribution/client/data/DependencyFlags.java:31-33 | the client flag's answer does not depend on the frontend bit, and in(3) holds for both flags |
| FileInfo.StatusFromCode | src/org/codespeak/distribution/client/data/FileInfo.java:39-47 | a returned status has the given code; the result is null iff no status has that code |
| FileInfo.StatusCodeRoundTrip | src/org/codespeak/distribution/client/data/FileInfo.java:15-47 | getStatusFromCode(s.getStatusCode()) is s; no two statuses share a code |
| FileInfo.FilePathIsReplacement | src/org/codespeak/distribution/client/data/FileInfo.java:79-95 | getFilePath is the remote path with every '/' replaced by the separator; on a '/' platform it is the remote path unchanged |
| FileInfo.PathAndNameAgree | src/org/codespeak/distribution/client/data/FileInfo.java:102-130 | with separator '/', getFilePathAndName equals getRemoteFilePathAndName; with another separator it is the remote join with every '/' replaced, when the name holds no '/' |
| FileInfo.ToJson | src/org/codespeak/distribution/client/data/FileInfo.java:168-179 | toJSON succeeds iff the status and update time are non-null, and then writes exactly six keys |
| FileInfo.RoundTrip | src/org/codespeak/distribution/client/data/FileInfo.java:168-219 | fromJSON(toJSON(f)) gives back f |
| FileInfo.FromJsonDefaults | src/org/codespeak/distribution/client/data/FileInfo.java:186-219 | an empty object gives empty strings, status NEW and a null update time |
| FileInfo.FromJsonResult | src/org/codespeak/distribution/client/data/FileInfo.java:186-219 | fromJSON throws exactly when a present key holds the wrong type; the status is getStatusFromCode of the stored code; an unknown code gives a file info that toJSON cannot write |
| ChangelogEntry.ToJson | src/org/codespeak/distribution/client/data/ChangelogEntry.java:38-46 | toJSON writes version and content, and release_time exactly when it is non-null, since put(key, null) drops the key |
| ChangelogEntry.RoundTrip | src/org/codespeak/distribution/client/data/ChangelogEntry.java:38-71 | fromJSON(toJSON(e)) gives back e, with or without a release time |
| ChangelogEntry.FromJsonResult | src/org/codespeak/distribution/client/data/ChangelogEntry.java:53-71 | fromJSON throws exactly when a present key holds a non-string; missing keys give "" and a null release time; present strings are copied |
| Json.Put | src/org/codespeak/distribution/client/Settings.java:91 | put(key, value) sets the key to a non-null value, removes it for null, and leaves every other key as it was |
| Strings.ReplaceChar | src/org/codespeak/distribution/client/data/FileInfo.java:91 | replace of one character by another keeps the length and changes exactly the occurrences |
| Strings.LastIndexOf | src/org/codespeak/distribution/client/util/MiscUtil.java:131-132 | lastIndexOf returns -1 or an index holding the character, with no occurrence after it |
| Strings.NatToStringInjective | src/org/codespeak/distribution/client/util/MiscUtil.java:134 | different numbers print as different decimal strings |
| StringUtil.IsNullOrEmptyCases | src/org/codespeak/distribution/client/util/StringUtil.java:15-17 | isNullOrEmpty(null) holds; for a non-null s it holds iff s has length 0 |
| DateUtil.EnsureIsoFormat | src/org/codespeak/distribution/client/util/DateUtil.java:18-20 | every space becomes 'T' and exactly one 'Z' is appended, so the length is \|s\|+1 and no space is left |
| DateUtil.EnsureIsoFormatSqlForm | src/org/codespeak/distribution/client/util/DateUtil.java:18-20 | "date time" becomes "dateTtimeZ" when neither half holds a space |
| DateUtil.GetInstant | src/org/codespeak/distribution/client/util/DateUtil.java:52-66 | getInstant returns the strict parse when it succeeds, and otherwise the strict parse of ensureISOFormat(s) |
| DateUtil.GetInstantSqlForm | src/org/codespeak/distribution/client/util/DateUtil.java:52-66 | an SQL date-time "d t" that the strict parse rejects is read as the ISO-8601 instant "dTtZ", and getInstant throws on it only when that ISO form is rejected as well |
| Paths.Resolve | src/org/codespeak/distribution/client/util/MiscUtil.java:127 | parent.resolve(child) for a relative child is the parent, the separator and the child |
| Paths.ResolveInjective | src/org/codespeak/distribution/client/util/MiscUtil.java:127 | under one parent, different children resolve to different paths |
| MiscUtil.Numbered | src/org/codespeak/distribution/client/util/MiscUtil.java:131-134 | the name "base (n).ext" splits back into the original base plus " (n)" and the original extension |
| MiscUtil.NumberedInjective | src/org/codespeak/distribution/client/util/MiscUtil.java:131-134 | different numbers give different names, so numbered names are always rebuilt from the original name |
| MiscUtil.CandidateFresh | src/org/codespeak/distribution/client/util/MiscUtil.java:126-137 | the path tried for number m differs from the original path and from every path tried before it |
| MiscUtil.SearchDone | src/org/codespeak/distribution/client/util/MiscUtil.java:126-139 | when the loop stops, the path is the original one, or the path for some n >= 2 all of whose predecessors exist |
| MiscUtil.GetNonExistentPath | src/org/codespeak/distribution/client/util/MiscUtil.java:120-140 | the result never exists; the original path is returned when it does not exist; otherwise the result is "base (n).ext" for the smallest free n >= 2; for an existing name without '.' substring throws |
| MiscUtil.IsNonEmptyTextFile | src/org/codespeak/distribution/client/util/MiscUtil.java:160-174 | holds iff the length is positive and the lower-cased text after the last '.' is txt, log, ini or rtf |
| MiscUtil.IsNonEmptyTextFileRejects | src/org/codespeak/distribution/client/util/MiscUtil.java:160-174 | false for a zero-length file and for a name without '.' |
| MiscUtil.IsNonEmptyTextFileUpperCase | src/org/codespeak/distribution/client/util/MiscUtil.java:166 | the extension test ignores case: "Notes.TXT" is a text file |
| MiscUtil.IsNonEmptyTextFileLastDot | src/org/codespeak/distribution/client/util/MiscUtil.java:163-169 | only the text after the last '.' counts: "server.old.log" is a text file and "notes.txt.bak" is not |
| MiscUtil.LaunchCommands | src/org/codespeak/distribution/client/util/MiscUtil.java:185-193 | the command list ends in [path, "--csds-launch"], and is preceded by ["java", "-jar"] iff the path ends in ".jar" |
| ErrorType.FromCode | src/org/codespeak/distribution/client/data/query/ErrorType.java:33-41 | fromCode gives the type with that code, and NONE exactly for codes other than 1 and 2 |
| ErrorType.CodeRoundTrip | src/org/codespeak/distribution/client/data/query/ErrorType.java:10-41 | fromCode(e.getErrorTypeCode()) is e; the codes are distinct |
| QueryTypes.IsInformationListQuery | src/org/codespeak/distribution/client/data/query/QueryTypes.java:10-49 | exactly the five plural queries whose table entry passes true are list queries; each is a get_ query, and no version check or changelog query is one |
| QueryTypes.QueryNamesDistinct | src/org/codespeak/distribution/client/data/query/QueryTypes.java:10-41 | no two queries share a name |
| QueryResponse.FromJsonResult | src/org/codespeak/distribution/client/data/query/QueryResponse.java:34-77 | fromJSON throws exactly on a mistyped present key; a response without status is an error; the type is NONE iff there is no known error code; the message is copied |
| QueryResponse.ListFromJsonResult | src/org/codespeak/distribution/client/data/query/InformationListQueryResponse.java:15-42 | the list response carries QueryResponse.fromJSON unchanged; its contents are null iff there is no "contents" key, and are the array otherwise |
| QueryResponse.ObjectFromJsonResult | src/org/codespeak/distribution/client/data/query/InformationQueryResponse.java:14-42 | the single-object response carries QueryResponse.fromJSON unchanged; its contents are null iff there is no "contents" key, and are the object otherwise |
| QueryResponse.ContentsShapesExclusive | src/org/codespeak/distribution/client/data/query/InformationQueryResponse.java:37-39 | one answer with contents cannot be read both as a list and as a single-object response |
| ErrorReports.LogLevel | src/org/codespeak/distribution/client/objects/ClientException.java:50-60 | SEVERE exactly for critical and severe errors, WARNING exactly for warnings, INFO otherwise |
| ErrorReports.AlertTypeOf | src/org/codespeak/distribution/client/objects/ClientException.java:66-80 | ERROR exactly for critical and severe errors, WARNING exactly for warnings, INFORMATION otherwise |
| ErrorReports.AlertMatchesLogLevel | src/org/codespeak/distribution/client/data/query/QueryException.java:45-75 | the alert type and the log level always agree |
| ClientException.WithoutSource | src/org/codespeak/distribution/client/objects/ClientException.java:19-28 | the two-argument constructor keeps the type and message and sets the source to "" |
| ClientException.BuildAlert | src/org/codespeak/distribution/client/objects/ClientException.java:66-83 | the alert carries the message under the header "Program Error", with an alert type that matches the log level |
| ClientException.AlertsDifferOnlyInHeader | src/org/codespeak/distribution/client/objects/ClientException.java:82 | a client error and a query error of the same type and message give the same alert type, and the alerts differ in their header |
| QueryException.BuildAlert | src/org/codespeak/distribution/client/data/query/QueryException.java:61-78 | the alert carries the message under the header "Query Error", with an alert type that matches the log level |
| Settings.FieldsAndKeys | src/org/codespeak/distribution/client/Settings.java:16-37 | the keys name the fields one to one, and values() lists each field once |
| Settings.ReadField | src/org/codespeak/distribution/client/Settings.java:106-126 | a field read from JSON is the stored Boolean, or the default when the key is missing or holds another type |
| Settings.ValuesFromJsonAreBooleans | src/org/codespeak/distribution/client/Settings.java:102-132 | fromJSON gives every field a Boolean value |
| Settings.RoundTrip | src/org/codespeak/distribution/client/Settings.java:84-132 | fromJSON(toJSON(s)) gives back s when every field holds a Boolean |
| Settings.NonBooleanReverts | src/org/codespeak/distribution/client/Settings.java:84-126 | a field set to null or to a non-Boolean comes back from toJSON and fromJSON as its default |
| Settings.Settings.GetValue | src/org/codespeak/distribution/client/Settings.java:67-69 | getValue returns the stored value, and null for a field without one |
| Settings.Settings.SetValue | src/org/codespeak/distribution/client/Settings.java:76-78 | after setValue(f, v), getValue(f) is v and every other field is unchanged |
| Settings.Settings.ToJson | src/org/codespeak/distribution/client/Settings.java:84-95 | toJSON's loop over the entries gives one key per field holding a non-null value, mapped to that value |
| Settings.EntryAdded | src/org/codespeak/distribution/client/Settings.java:87-92 | one step of toJSON's loop extends the object by that field's entry |
| Settings.FromJson | src/org/codespeak/distribution/client/Settings.java:102-132 | fromJSON's loop yields, for every field, the stored Boolean or the default |
| Program.DependencyIds | src/org/codespeak/distribution/client/data/Program.java:209-215 | the dependency array holds the ids in order, and toJSON throws iff some dependency is null |
| Program.ToJson | src/org/codespeak/distribution/client/data/Program.java:195-218 | toJSON succeeds iff the category, release time and dependencies are non-null; it writes eleven keys, category_id as the category's id and dependencies as the ids in order |
| Program.ResolveDependencies | src/org/codespeak/distribution/client/data/Program.java:296-304 | each dependency id is looked up in the chosen partition, an unknown id giving null; a non-integer element throws |
| Program.FromJsonDefaults | src/org/codespeak/distribution/client/data/Program.java:242-253 | an empty object gives id 0, empty strings, a null category and release time, no dependencies, and the installed flag asked for |
| Program.FromJsonResolves | src/org/codespeak/distribution/client/data/Program.java:259-262 | the category and each dependency are the first entries with the stored ids in the partition that installed chooses; the category is null iff its id is unregistered |
| Program.FromJsonNeedsDependencies | src/org/codespeak/distribution/client/data/Program.java:296-304 | a "dependencies" value that is not an array of integer ids makes fromJSON throw |
| Program.RoundTrip | src/org/codespeak/distribution/client/data/Program.java:195-307 | fromJSON(toJSON(p), inst) restores every field with installed = inst, when the category and dependencies are the first registered entries of their ids |
| Program.FromJsonIgnoresOtherKeys | src/org/codespeak/distribution/client/data/Program.java:242-307 | fromJSON reads only its eleven keys, so an extra key such as "files" changes nothing |
| Program.EqualsAsWrittenNeverHolds | src/org/codespeak/distribution/client/data/Program.java:225-234 | equals as written is never true: it is false for every non-Category argument, the program itself included, and throws for a Category |
| Program.Equals | src/org/codespeak/distribution/client/data/Program.java:220-234 | the corrected equals holds only for a program with the same hash code, that is the same id |
| Program.EqualsIsEquivalence | src/org/codespeak/distribution/client/data/Program.java:220-234 | the corrected equals is reflexive, symmetric and transitive, false for null, and true exactly when the hash codes agree |
| ProgramInstall.Plan | src/org/codespeak/distribution/client/data/Program.java:169-181 | one manifest entry writes programDir/getFilePathAndName() with the bytes of getRemoteFilePathAndName(), and makes a directory iff its path is non-empty |
| ProgramInstall.Plans | src/org/codespeak/distribution/client/data/Program.java:168-173 | each manifest entry is read on its own, in order |
| ProgramInstall.EntriesStuck | src/org/codespeak/distribution/client/data/Program.java:168-188 | after an exception the later entries change nothing |
| ProgramInstall.EntriesDone | src/org/codespeak/distribution/client/data/Program.java:168-188 | the loop ends normally iff every entry is readable and fetchable; it then made exactly the entries' directories, wrote exactly their files, and left every other file as it was |
| ProgramInstall.EntriesLastWriteWins | src/org/codespeak/distribution/client/data/Program.java:181-187 | after a normal run each entry's file holds its fetched bytes, overwriting earlier content, unless a later entry writes the same file |
| ProgramInstall.EntriesFailure | src/org/codespeak/distribution/client/data/Program.java:168-188 | a failed run stopped at one entry k; every entry before k completed, and nothing after k was done |
| ProgramInstall.InstallEntry | src/org/codespeak/distribution/client/data/Program.java:169-187 | one loop iteration on the file system does what the plan of its entry says |
| ProgramInstall.Install | src/org/codespeak/distribution/client/data/Program.java:160-189 | install() on the file system: with no backend response it throws before touching the disk; otherwise it makes the program folder, and then a null manifest throws before any file is written, and a manifest runs the loop |
| ProgramInstall.InstallEffect | src/org/codespeak/distribution/client/data/Program.java:160-189 | no response leaves the disk unchanged; a null manifest adds only the program folder; with a manifest install() succeeds iff every entry is readable and fetchable, and then it made exactly the folder and the entries' directories, wrote exactly their files and left every other file as it was |
| InstalledProgram.Install | src/org/codespeak/distribution/client/data/InstalledProgram.java:17-51 | install(program, files) keeps the program and the given file list |
| InstalledProgram.FilesJson | src/org/codespeak/distribution/client/data/InstalledProgram.java:31-35 | the files array holds one FileInfo.toJSON per file, in list order |
| InstalledProgram.ToJson | src/org/codespeak/distribution/client/data/InstalledProgram.java:29-40 | toJSON is Program.toJSON plus exactly one key, "files" |
| InstalledProgram.ParseFiles | src/org/codespeak/distribution/client/data/InstalledProgram.java:62-69 | each element of files must be an object FileInfo.fromJSON accepts, and is read in order |
| InstalledProgram.FromJsonParts | src/org/codespeak/distribution/client/data/InstalledProgram.java:58-72 | the program part is Program.fromJSON(json, true), it is marked installed, and no "files" key gives no files |
| InstalledProgram.FilesRoundTrip | src/org/codespeak/distribution/client/data/InstalledProgram.java:29-69 | the files toJSON writes read back as the same files |
| InstalledProgram.RoundTrip | src/org/codespeak/distribution/client/data/InstalledProgram.java:29-72 | fromJSON(toJSON(ip)) gives back the program, marked installed, and its files, when its category and dependencies are registered in the installed partition |
| IdLists.FirstIndex | src/org/codespeak/distribution/client/data/handler/CategoryHandler.java:42-48 | the first position whose entry has the id, or the length when no entry has it |
| IdLists.FindFirst | src/org/codespeak/distribution/client/data/handler/CategoryHandler.java:39-49 | the lookup gives null iff no entry has the id, and otherwise the first entry with it |
| IdLists.RemoveFirstShape | src/org/codespeak/distribution/client/data/handler/CategoryHandler.java:57-71 | removing an absent id changes nothing; otherwise exactly the first match goes and the rest keep their order |
| IdLists.FindFirstAppend | src/org/codespeak/distribution/client/data/handler/CategoryHandler.java:25-49 | after an append, a lookup finds the old first match, or the new entry when only it has the id |
| IdLists.FindFirstConcat | src/org/codespeak/distribution/client/handler/DataHandler.java:53-63 | a lookup in a list extended by a second part finds the first part's entry whenever the first part has the id, and the second part's otherwise |
| IdLists.KeySeq | src/org/codespeak/distribution/client/handler/DataHandler.java:356-358 | the ids of a list, one per entry, in list order |
| IdLists.RemoveFirstAppendNew | src/org/codespeak/distribution/client/data/handler/ProgramHandler.java:21-57 | deleting the id of an entry just added under a new id undoes the add |
| IdLists.Without | src/org/codespeak/distribution/client/handler/DataHandler.java:196-200 | filtering keeps exactly the entries whose id is outside the set |
| IdLists.RemoveFirstIsWithout | src/org/codespeak/distribution/client/handler/DataHandler.java:183 | in a list without repeated ids, removing the first match removes every entry with that id |
| IdLists.RemoveEachIsWithout | src/org/codespeak/distribution/client/handler/DataHandler.java:207-209 | in a list without repeated ids, removing each id in turn filters out all of them, whatever the order |
| IdLists.AppendMissingSpec | src/org/codespeak/distribution/client/handler/DataHandler.java:70-84 | the add-if-absent loop keeps the first list in front, adds only entries with new ids, ends with the ids of both lists, and repeats no id |
| IdLists.AppendMissingWithout | src/org/codespeak/distribution/client/handler/DataHandler.java:160-169 | filtering out the ids that add-if-absent added undoes it |
| IdLists.Filter | src/org/codespeak/distribution/client/handler/DataHandler.java:223-231 | the filter keeps only entries of the list that pass, and every entry that passes |
| IdLists.Find | src/org/codespeak/distribution/client/handler/DataHandler.java:53-63 | the early-return loop returns the first entry with the id, or null |
| IdLists.Remove | src/org/codespeak/distribution/client/data/handler/CategoryHandler.java:57-71 | the iterator loop returns the first match and the list without it |
| IdLists.AddMissing | src/org/codespeak/distribution/client/handler/DataHandler.java:77-81 | the `if (!contains) add` loop computes add-if-absent |
| IdLists.Select | src/org/codespeak/distribution/client/handler/DataHandler.java:223-231 | the copy-if loop computes the filter |
| IdLists.AddMissingWhere | src/org/codespeak/distribution/client/handler/DataHandler.java:233-243 | the loop that skips non-matching entries and adds the others unless their id is listed computes add-if-absent of the filter |
| CategoryHandler.CategoryHandler.AddCategory | src/org/codespeak/distribution/client/data/handler/CategoryHandler.java:25-31 | the category is appended to exactly the chosen list |
| CategoryHandler.CategoryHandler.GetCategory | src/org/codespeak/distribution/client/data/handler/CategoryHandler.java:39-49 | the first category of the chosen list with the id, or null |
| CategoryHandler.CategoryHandler.RemoveCategory | src/org/codespeak/distribution/client/data/handler/CategoryHandler.java:57-71 | the first match of the chosen list is removed and returned, or null is returned and nothing changes; the other list is untouched |
| DependencyHandler.DependencyHandler.AddDependency | src/org/codespeak/distribution/client/data/handler/DependencyHandler.java:24-30 | the dependency is appended to exactly the chosen list |
| DependencyHandler.DependencyHandler.GetDependency | src/org/codespeak/distribution/client/data/handler/DependencyHandler.java:38-48 | the first dependency of the chosen list with the id, or null |
| DependencyHandler.DependencyHandler.RemoveDependency | src/org/codespeak/distribution/client/data/handler/DependencyHandler.java:56-70 | the first match of the chosen list is removed and returned, or null is returned and nothing changes; the other list is untouched |
| ProgramHandler.ProgramHandler.AddProgram | src/org/codespeak/distribution/client/data/handler/ProgramHandler.java:21-23 | exactly one program is appended |
| ProgramHandler.ProgramHandler.GetProgram | src/org/codespeak/distribution/client/data/handler/ProgramHandler.java:30-38 | the first program with the id, or null |
| ProgramHandler.ProgramHandler.DeleteProgram | src/org/codespeak/distribution/client/data/handler/ProgramHandler.java:45-57 | the first match is removed and returned, or null is returned and nothing changes |
| InstalledProgramHandler.InstalledProgramHandler.AddProgram | src/org/codespeak/distribution/client/data/handler/InstalledProgramHandler.java:21-23 | exactly one installed program is appended |
| InstalledProgramHandler.InstalledProgramHandler.GetProgram | src/org/codespeak/distribution/client/data/handler/InstalledProgramHandler.java:30-38 | the first installed program with the id, or null |
| InstalledProgramHandler.InstalledProgramHandler.DeleteProgram | src/org/codespeak/distribution/client/data/handler/InstalledProgramHandler.java:45-57 | the first match is removed and returned, or null is returned and nothing changes |
| DataManager.DataManager.AddCategory | src/org/codespeak/distribution/client/data/DataManager.java:30-36 | the category is appended to exactly the chosen list; no other list changes |
| DataManager.DataManager.GetCategory | src/org/codespeak/distribution/client/data/DataManager.java:44-54 | the first category of the chosen list with the id, or null |
| DataManager.DataManager.RemoveCategory | src/org/codespeak/distribution/client/data/DataManager.java:62-76 | the first match is removed and returned, or null is returned and nothing changes; no other list changes |
| DataManager.DataManager.AddDependency | src/org/codespeak/distribution/client/data/DataManager.java:92-98 | the dependency is appended to exactly the chosen list; no other list changes |
| DataManager.DataManager.GetDependency | src/org/codespeak/distribution/client/data/DataManager.java:106-116 | the first dependency of the chosen list with the id, or null |
| DataManager.DataManager.RemoveDependency | src/org/codespeak/distribution/client/data/DataManager.java:124-138 | the first match is removed and returned, or null is returned and nothing changes; no other list changes |
| DataManager.DataManager.AddProgram | src/org/codespeak/distribution/client/data/DataManager.java:153-155 | one catalog program is appended; no other list changes |
| DataManager.DataManager.GetProgram | src/org/codespeak/distribution/client/data/DataManager.java:162-170 | the first catalog program with the id, or null |
| DataManager.DataManager.DeleteProgram | src/org/codespeak/distribution/client/data/DataManager.java:177-189 | the first match is removed and returned, or null is returned and nothing changes |
| DataManager.DataManager.AddInstalledProgram | src/org/codespeak/distribution/client/data/DataManager.java:195-197 | one installed program is appended; no other list changes |
| DataManager.DataManager.GetInstalledProgram | src/org/codespeak/distribution/client/data/DataManager.java:204-212 | the first installed program with the id, or null |
| DataManager.DataManager.DeleteInstalledProgram | src/org/codespeak/distribution/client/data/DataManager.java:219-231 | the first match is removed and returned, or null is returned and nothing changes |
| DataManager.EncodeAll | src/org/codespeak/distribution/client/data/DataManager.java:243-253 | an export loop gives one JSON element per entry, in order, and throws iff some entry's toJSON throws |
| DataManager.ExportOf | src/org/codespeak/distribution/client/data/DataManager.java:237-260 | the export has exactly the keys categories, dependencies and programs, each array holding every installed entry's JSON in order |
| DataManager.DataManager.ExportInstalledPrograms | src/org/codespeak/distribution/client/data/DataManager.java:237-260 | the export method's loops compute that export |
| DataManager.ParseAll | src/org/codespeak/distribution/client/data/DataManager.java:270-274 | an import loop appends the parsed elements in order until the first that throws, and completes iff none throws |
| DataManager.ParseAllComplete | src/org/codespeak/distribution/client/data/DataManager.java:270-274 | the loop completes exactly when every element parses |
| DataManager.ParseAllExact | src/org/codespeak/distribution/client/data/DataManager.java:270-274 | when each element parses to the matching value, the loop appends exactly those values |
| DataManager.ReadSection | src/org/codespeak/distribution/client/data/DataManager.java:267-275 | one `if (json.has(key))` block: nothing when the key is absent; a non-array throws |
| DataManager.ImportOf | src/org/codespeak/distribution/client/data/DataManager.java:266-296 | the three blocks run in order, and an exception in one leaves the later ones unread |
| DataManager.ImportAsWrittenRepeats | src/org/codespeak/distribution/client/data/DataManager.java:287-295 | as written, every imported program is the one read from the top-level object |
| DataManager.ImportAsWrittenLosesPrograms | src/org/codespeak/distribution/client/data/DataManager.java:287-295 | as written, an object holding only program 5 is imported as a program with id 0; read per element it comes back as program 5 |
| DataManager.ImportAsWrittenThrowsOnExport | src/org/codespeak/distribution/client/data/DataManager.java:237-296 | as written, importing an actual export that holds a dependency and a program throws, because the top-level "dependencies" array holds objects where fromJSON expects ids, and no program is imported |
| DataManager.DataManager.ImportInstalledProgramsAsWritten | src/org/codespeak/distribution/client/data/DataManager.java:266-296 | the import as written appends to the installed lists what its blocks parse, reading each program from the top-level object |
| DataManager.DataManager.ImportInstalledPrograms | src/org/codespeak/distribution/client/data/DataManager.java:266-296 | the corrected import appends to the installed lists what its blocks parse, reading each program from its own element |
| DataManager.MarkInstalled | src/org/codespeak/distribution/client/data/InstalledProgram.java:59 | the programs as fromJSON marks them: unchanged except installed = true |
| DataManager.ExportImportRoundTrip | src/org/codespeak/distribution/client/data/DataManager.java:237-296 | importing an export with the corrected import appends the exported lists unchanged, the programs marked installed, and completes |
| Registry.InstallCategoriesEffect | src/org/codespeak/distribution/client/handler/DataHandler.java:158-162 | installing adds the program's category id to the installed categories and lists no id twice |
| Registry.InstallDependenciesEffect | src/org/codespeak/distribution/client/handler/DataHandler.java:164-170 | installing adds the program's dependency ids to the installed dependencies and lists no id twice |
| Registry.InstallKeepsRefCount | src/org/codespeak/distribution/client/handler/DataHandler.java:155-173 | installing keeps the installed categories and dependencies exactly those of the installed programs, each once; a new id keeps program ids distinct |
| Registry.Pruned | src/org/codespeak/distribution/client/handler/DataHandler.java:186-201 | after the scan, the program's own map holds exactly its dependencies that no remaining program refers to |
| Registry.UninstallCategoriesEffect | src/org/codespeak/distribution/client/handler/DataHandler.java:185-205 | the category id leaves the installed categories iff no remaining program has a category with that id, and no other id leaves |
| Registry.UninstallDependenciesEffect | src/org/codespeak/distribution/client/handler/DataHandler.java:186-209 | a dependency id leaves the installed dependencies iff it is the program's and no remaining program refers to it |
| Registry.UninstallKeepsRefCount | src/org/codespeak/distribution/client/handler/DataHandler.java:180-210 | uninstalling an installed program keeps the installed categories and dependencies exactly those of the remaining programs, each once |
| Registry.RemainingAfterInstall | src/org/codespeak/distribution/client/handler/DataHandler.java:172-183 | remove(program) after add(program) under a new id restores the installed programs |
| Registry.CategoriesAfterInstall | src/org/codespeak/distribution/client/handler/DataHandler.java:158-205 | uninstalling a just-installed program restores the installed categories |
| Registry.DependenciesAfterInstall | src/org/codespeak/distribution/client/handler/DataHandler.java:164-209 | uninstalling a just-installed program restores the installed dependencies |
| Registry.InstallThenUninstall | src/org/codespeak/distribution/client/handler/DataHandler.java:155-210 | uninstalling a program just installed under a new id restores the whole installed partition |
| DataHandler.DataHandler.AddCategory | src/org/codespeak/distribution/client/handler/DataHandler.java:39-45 | the category is appended to exactly the chosen list; nothing else changes |
| DataHandler.DataHandler.GetCategory | src/org/codespeak/distribution/client/handler/DataHandler.java:53-63 | the first category of the chosen list with the id, or null |
| DataHandler.DataHandler.GetCategories | src/org/codespeak/distribution/client/handler/DataHandler.java:70-84 | the installed categories in order, then each catalog category whose id is not yet listed |
| DataHandler.DataHandler.AddDependency | src/org/codespeak/distribution/client/handler/DataHandler.java:91-97 | the dependency is appended to exactly the chosen list; nothing else changes |
| DataHandler.DataHandler.GetDependency | src/org/codespeak/distribution/client/handler/DataHandler.java:105-115 | the first dependency of the chosen list with the id, or null |
| DataHandler.DataHandler.AddProgram | src/org/codespeak/distribution/client/handler/DataHandler.java:122-128 | the program is appended to exactly the chosen list; nothing else changes |
| DataHandler.DataHandler.GetProgram | src/org/codespeak/distribution/client/handler/DataHandler.java:136-146 | the first program of the chosen list with the id, or null |
| DataHandler.DataHandler.InstallProgram | src/org/codespeak/distribution/client/handler/DataHandler.java:155-173 | when install() throws nothing changes; otherwise the category and each dependency are added unless their id is installed, and the program is appended; the reference count is kept |
| DataHandler.DataHandler.UninstallProgram | src/org/codespeak/distribution/client/handler/DataHandler.java:180-210 | when uninstall() throws nothing changes; otherwise the first program with its id goes, the category goes unless a remaining program shares it, the shared dependencies are deleted from the program's map and the others are removed from the installed list; the reference count is kept |
| DataHandler.ScanRemaining | src/org/codespeak/distribution/client/handler/DataHandler.java:188-201 | the scan leaves category null iff a remaining program shares it, and deletes from the map every dependency a remaining program refers to |
| DataHandler.RemoveKeys | src/org/codespeak/distribution/client/handler/DataHandler.java:196-200 | the inner loop deletes from the map every dependency the checked program refers to |
| DataHandler.RemoveAll | src/org/codespeak/distribution/client/handler/DataHandler.java:207-209 | the final loop removes each dependency left in the map from the installed list |
| DataHandler.ListingSpec | src/org/codespeak/distribution/client/handler/DataHandler.java:220-246 | getPrograms lists the matching installed programs first; it holds only matching programs of either list and every matching catalog id; it repeats no id when the matching installed programs repeat none; with a null category it is the plain merge |
| DataHandler.DataHandler.GetPrograms | src/org/codespeak/distribution/client/handler/DataHandler.java:220-246 | getPrograms computes that listing |
| DataHandler.DataHandler.SetMappedData | src/org/codespeak/distribution/client/handler/DataHandler.java:253-255 | after setMappedData(k, v), getMappedData(k) is v and no other key changes |
| DataHandler.DataHandler.GetMappedData | src/org/codespeak/distribution/client/handler/DataHandler.java:262-273 | getMappedData is non-null iff hasMappedData, and is then the stored value |
| DataHandler.NewPrograms | src/org/codespeak/distribution/client/handler/DataHandler.java:279-295 | nothing while no ids are stored; otherwise exactly the catalog programs whose id is not stored |
| DataHandler.DataHandler.GetNewPrograms | src/org/codespeak/distribution/client/handler/DataHandler.java:279-295 | getNewPrograms computes those programs, in catalog order |
| DataHandler.NoNewProgramsAfterExport | src/org/codespeak/distribution/client/handler/DataHandler.java:279-358 | once an export has stored the catalog's ids, no program of that catalog is new |
| DataHandler.DataHandler.MarkDetachedPrograms | src/org/codespeak/distribution/client/handler/DataHandler.java:301-314 | each installed program is detached iff no catalog program has its id; nothing else changes |
| DataExchange.CategoriesOf | src/org/codespeak/distribution/client/handler/DataHandler.java:332-339 | the category of each installed program, in order |
| DataExchange.AllDependenciesKeys | src/org/codespeak/distribution/client/handler/DataHandler.java:341-345 | the dependencies the export walks have exactly the ids the installed programs refer to |
| DataExchange.SavedCategories | src/org/codespeak/distribution/client/handler/DataHandler.java:332-346 | the saved categories are those of the installed programs, one per id |
| DataExchange.SavedDependencies | src/org/codespeak/distribution/client/handler/DataHandler.java:332-346 | the saved dependencies are those the installed programs refer to, one per id |
| DataExchange.ExportSavesInstalled | src/org/codespeak/distribution/client/handler/DataHandler.java:321-354 | while the reference count holds, the export saves exactly the installed category and dependency ids |
| DataExchange.MappedJson | src/org/codespeak/distribution/client/handler/DataHandler.java:360-364 | the mapped data becomes a JSON object with the same keys and string values |
| DataExchange.ExportOf | src/org/codespeak/distribution/client/handler/DataHandler.java:321-373 | the export succeeds iff every installed program's toJSON does, and then has exactly five keys |
| DataHandler.SaveInstalled | src/org/codespeak/distribution/client/handler/DataHandler.java:332-346 | the export's first loop gives each program's JSON in order, and the saved categories and dependencies |
| DataHandler.EncodeIds | src/org/codespeak/distribution/client/handler/DataHandler.java:356-358 | the stored_program_ids loop gives the catalog ids as JSON integers |
| DataHandler.EncodeMapped | src/org/codespeak/distribution/client/handler/DataHandler.java:360-364 | the mapped_data loop gives the mapped data as a JSON object |
| DataHandler.DataHandler.ExportData | src/org/codespeak/distribution/client/handler/DataHandler.java:321-373 | exportDataToJSON computes that export |
| DataExchange.MappedSection | src/org/codespeak/distribution/client/handler/DataHandler.java:419-427 | the mapped_data block puts nothing when absent, throws on a non-object or a non-string value, and otherwise puts every key with its string |
| DataExchange.ImportOf | src/org/codespeak/distribution/client/handler/DataHandler.java:380-428 | the five blocks run in order, each appending until its first exception, which ends the import |
| DataExchange.CategoriesRoundTrip | src/org/codespeak/distribution/client/handler/DataHandler.java:349-389 | the categories block of an export reads back as the saved categories |
| DataExchange.DependenciesRoundTrip | src/org/codespeak/distribution/client/handler/DataHandler.java:353-399 | the dependencies block of an export reads back as the saved dependencies |
| DataExchange.ProgramsRoundTrip | src/org/codespeak/distribution/client/handler/DataHandler.java:333-409 | the programs block of an export reads back as the installed programs when the installed lists the lookups search register each program's category and dependencies first under their ids |
| DataExchange.SavedRegistered | src/org/codespeak/distribution/client/handler/DataHandler.java:332-409 | when the installed programs agree on what each category and dependency id stands for, the saved categories and dependencies register every one of them |
| DataExchange.ImportLookupShadowed | src/org/codespeak/distribution/client/data/Program.java:259-262 | importing into a registry that already holds a category id, fromJSON's lookup finds the older entry and not the imported one |
| DataExchange.IdsRoundTrip | src/org/codespeak/distribution/client/handler/DataHandler.java:357-417 | the stored_program_ids block of an export reads back as the ids |
| DataExchange.MappedRoundTrip | src/org/codespeak/distribution/client/handler/DataHandler.java:363-427 | the mapped_data block of an export reads back as the mapped data |
| DataExchange.ExportImportInto | src/org/codespeak/distribution/client/handler/DataHandler.java:321-428 | importing an export into a registry holding earlier entries gives the same result whenever the installed lists, earlier entries first, still register every exported program |
| DataExchange.ExportImportRoundTrip | src/org/codespeak/distribution/client/handler/DataHandler.java:321-428 | importing an export into an empty registry appends the saved categories and dependencies, the installed programs, the catalog ids and the mapped data, and runs to the end, when the programs agree on their categories and dependencies |
| DataHandler.PutStrings | src/org/codespeak/distribution/client/handler/DataHandler.java:422-426 | the put loop succeeds iff every value is a string; it puts only string values of the block, and all of them on success |
| DataHandler.DataHandler.ImportData | src/org/codespeak/distribution/client/handler/DataHandler.java:380-428 | each list gains what its block parsed, the programs resolved against the installed lists as the two earlier blocks left them; the mapped data gains the whole block when the import runs to the end, and otherwise the part put before the exception |
| DataHandler.DataHandler.ImportMapped | src/org/codespeak/distribution/client/handler/DataHandler.java:419-427 | the mapped_data block succeeds iff it is well-formed, and then merges the whole block |

## Left out

- Network access: `BackendHandler`, the remote fetch inside `Program.install` (a function parameter here) and the dependency download of the scenes are network clients.
- Real file-system effects: absolute paths, `mkdir`/`mkdirs` failures, `File.length()` and `exists()` appear only through a set or map of paths, or as a parameter. `MiscUtil.ensurePathExists` is only a `mkdirs` call and is not modelled.
- `MiscUtil.getFileChecksum`: MD5 through `MessageDigest`, a foreign crypto library.
- `formatInstant` in `DateUtil` and `MiscUtil`, and `Instant.parse` itself: library date formatting and parsing. Parsing is a function parameter of `DateUtil.GetInstant`.
- DateUtil.GetInstant: also models `MiscUtil.getInstant` and `MiscUtil.ensureISOFormat`, whose text is identical; they are not defined twice.
- `Timestamp.valueOf` and `toString`: a timestamp is kept as its text, so the format check of `valueOf` (an `IllegalArgumentException` on bad text) is not modelled.
- ChangelogEntry.ToJson: puts the release time as its text; the Java code puts the `Timestamp` object, which org.json serialises through its own rules.
- org.json coercions: a numeric string read by `getInt`, or a number read by `getString`, counts as a wrong type here; org.json would convert some of them.
- Integer width: ids, status codes and stored program ids are unbounded integers; Java's 32-bit `int` wrap-around plays no part in the modelled code. Flags are 64-bit vectors, as Java `long`.
- Strings.ToLower: lower-cases ASCII letters only; Java's locale-dependent `toLowerCase` (the Turkish dotted i, for example) is not modelled.
- MiscUtil.LaunchCommands: covers the command list only; `getParent().toAbsolutePath()`, the working directory and `ProcessBuilder.start` are process launching.
- Paths.Resolve: covers `Path.resolve` for a relative child only; an absolute child, and the normalisation of separators that `Path` does, are left out.
- ReportType in module ErrorReports: `ClientException` and `QueryException` switch on `ERROR_CRITICAL`, which `ErrorType.java` of this revision does not declare; the reported types add it to the three declared ones.
- The UI (`scenes/*`, `AlertUtil`, `SceneUtil`, `StageController`, `ProgramTableData`, `CodeSpeakLauncher`) is JavaFX presentation. `AlertUtil.createAlert` is only the triple of alert type, message and header.
- Process launching and application lifecycle (`ClientUpdater`, `ProgramUpdater`, `Updater`, `Main`, `DistributionClient`).
- `Program.update`, `repair`, `uninstall`, `setDetached` and `getDirectory`: their bodies are not in the files modelled. `DataHandler` treats `install()` and `uninstall()` as outcomes passed in, and `setDetached` as setting the detached flag.
- DataExchange.ExportImportRoundTrip: DataHandler's program JSON, `toJSON` and `fromJSON(obj, true)` of the revision `DataHandler` works with, are the parameters `encode` and `decode`. `decode` receives the installed categories and dependencies it resolves ids against. The round trip assumes they are inverse whenever those lists register the program (`DataExchange.Decodes`), and is proved for an import into an empty registry of programs that agree on their categories and dependencies (`DataExchange.Consistent`). Into a registry that already holds an id, the older entry is found (`DataExchange.ImportLookupShadowed`), and `DataExchange.ExportImportInto` states what is then needed.
- DataExchange.ProgramsRoundTrip: rests on the same `Decodes` assumption.
- DataHandler's Program view: a program's category is never null, so `checkCategory.equals(category)`, which throws a `NullPointerException` on a null category, is not modelled.
- DataHandler's map iteration order: the dependency map's key set and the mapped-data key set are visited in an arbitrary but fixed order. The model takes the stored sequence order, and for `mappedData` any order (`:|`).
- Aliasing: `DataHandler` lists share `Program` objects, so `setDetached` on an installed program would also change a catalog entry that is the same object, and the pruning in `uninstallProgram` changes the program object callers hold. The model returns the pruned program as a value (`after`) and keeps the lists as sequences of values.
- DataHandler.DataHandler.UninstallProgram: a list with two installed programs of the same id would make Java's for-each over `installedPrograms` see the program still there. The reference-count preservation is stated under the precondition that installed program ids are distinct and the program is installed.
- DataHandler.DataHandler.ImportData: after an exception in the mapped_data block, the model states only that some part of the block, string values under their keys, was put, not which keys in which order.
- DataHandler.DataHandler.SetMappedData: Java's `HashMap` accepts a null value; the model stores strings only, so a null stored by `setMappedData(k, null)` (a key that `hasMappedData` reports but whose value is null) is not modelled.
- `DataHandler.SaveInstalled`, `DataHandler.EncodeIds` and `DataHandler.EncodeMapped`: `exportDataToJSON` is one Java method; its loops are separate Dafny methods here, which changes nothing about what it computes.
- InstalledProgram.Install: `InstalledProgram.java` (lines 18-20) calls an 11-argument `super(...)` that the 12-argument `Program` constructor of this revision does not match, so the installed flag after `install(program, files)` is not determined by the code; the model keeps the flag of the given program.
- DataManager.DataManager.ImportInstalledPrograms: `Program.fromJSON` looks ids up in `DataHandler`'s registry; the import takes that registry as a parameter (`Program.Registry`) instead of reading global state.

## Findings

| source | as written | input that shows it | evidently intended | confidence | as-written member | corrected member |
|---|---|---|---|---|---|---|
| src/org/codespeak/distribution/client/data/Program.java:225-234 | `equals` tests `other instanceof Category`, then casts `other` to `Program` | any program p compared with itself: `p.equals(p)` is false; a Category argument makes the cast throw `ClassCastException` | `other instanceof Program`, so that programs with the same id are equal, as `hashCode` (the id) suggests | high, not executed | Program.EqualsAsWritten, Program.EqualsAsWrittenNeverHolds | Program.Equals, Program.EqualsIsEquivalence |
| src/org/codespeak/distribution/client/data/DataManager.java:292 | each element of "programs" is fetched as `obj`, but the program is built with `InstalledProgram.fromJSON(json)` from the whole import object | an object holding only `{"programs": [{"id": 5}]}` is imported as one program with id 0 and default fields; an actual export, which always writes "categories" and "dependencies", throws at `getInt` as soon as its dependencies array is non-empty | `InstalledProgram.fromJSON(obj)`, reading each program from its own element | high, not executed | DataManager.ImportInstalledProgramsAsWritten, DataManager.ImportAsWrittenRepeats, DataManager.ImportAsWrittenLosesPrograms, DataManager.ImportAsWrittenThrowsOnExport | DataManager.ImportInstalledPrograms, DataManager.ExportImportRoundTrip |
