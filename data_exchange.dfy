/**
 * DataHandler.java's exportDataToJSON and importDataFromJSON as functions: what the export
 * writes, what an import appends, and the round trip between them. A program's own JSON form
 * is a parameter: encode for toJSON, and decode for fromJSON(obj, true), which resolves the
 * stored category and dependency ids against the installed categories and dependencies that
 * the import has built up by the time the programs block runs.
 */
module DataExchange {
  import opened Wrappers
  import opened Json
  import Category
  import Dependency
  import opened IdLists
  import Registry
  import DataManager

  /** The category of each program, in order */
  function CategoriesOf(progs: seq<Registry.Program>): (r: seq<Category.Category>)
    ensures |r| == |progs| && forall i :: 0 <= i < |progs| ==> r[i] == progs[i].category
  {
    seq(|progs|, i requires 0 <= i < |progs| => progs[i].category)
  }

  /** The dependencies of each program, program after program */
  function AllDependencies(progs: seq<Registry.Program>): seq<Dependency.Dependency>
    decreases |progs|
  {
    if progs == [] then []
    else AllDependencies(progs[..|progs| - 1]) + progs[|progs| - 1].dependencies
  }

  lemma {:induction false} AllDependenciesKeys(progs: seq<Registry.Program>)
    ensures Keys(AllDependencies(progs), Dependency.Id) == Registry.DependencyIds(progs)
    decreases |progs|
  {
    if progs != [] {
      var init := progs[..|progs| - 1];
      var last := progs[|progs| - 1];
      AllDependenciesKeys(init);
      KeysAppend(AllDependencies(init), last.dependencies, Dependency.Id);
      assert progs == init + [last];
      Registry.DependencyIdsAppend(init, [last]);
      Registry.DependencyIdsOne(last);
    }
  }

  lemma CategoriesOfKeys(progs: seq<Registry.Program>)
    ensures Keys(CategoriesOf(progs), Category.Id) == Keys(progs, Registry.CategoryIdOf)
  {
    var cs := CategoriesOf(progs);
    forall c | c in cs ensures c.id in Keys(progs, Registry.CategoryIdOf) {
      var i :| 0 <= i < |cs| && cs[i] == c;
      assert progs[i] in progs;
    }
    forall q | q in progs ensures q.category.id in Keys(cs, Category.Id) {
      var i :| 0 <= i < |progs| && progs[i] == q;
      assert cs[i] in cs;
    }
  }

  /** One more program extends both lists the export loop walks */
  lemma ExportStep(progs: seq<Registry.Program>, i: nat)
    requires i < |progs|
    ensures CategoriesOf(progs[..i + 1]) == CategoriesOf(progs[..i]) + [progs[i].category]
    ensures AllDependencies(progs[..i + 1]) == AllDependencies(progs[..i]) + progs[i].dependencies
  {
    assert progs[..i + 1][..i] == progs[..i];
  }

  /** The categories the export saves: those of the installed programs, each id once, in first-use order */
  function SavedCategories(progs: seq<Registry.Program>): (r: seq<Category.Category>)
    ensures Keys(r, Category.Id) == Keys(progs, Registry.CategoryIdOf)
    ensures DistinctKeys(r, Category.Id)
  {
    AppendMissingSpec([], CategoriesOf(progs), Category.Id);
    CategoriesOfKeys(progs);
    AppendMissing([], CategoriesOf(progs), Category.Id)
  }

  /** The dependencies the export saves: those the installed programs refer to, each id once */
  function SavedDependencies(progs: seq<Registry.Program>): (r: seq<Dependency.Dependency>)
    ensures Keys(r, Dependency.Id) == Registry.DependencyIds(progs)
    ensures DistinctKeys(r, Dependency.Id)
  {
    AppendMissingSpec([], AllDependencies(progs), Dependency.Id);
    AllDependenciesKeys(progs);
    AppendMissing([], AllDependencies(progs), Dependency.Id)
  }

  /** While the installed partition is reference-counted, the export saves exactly its category and dependency ids */
  lemma ExportSavesInstalled(cats: seq<Category.Category>, deps: seq<Dependency.Dependency>,
                             progs: seq<Registry.Program>)
    requires Registry.RefCounted(cats, deps, progs)
    ensures Keys(SavedCategories(progs), Category.Id) == Keys(cats, Category.Id)
    ensures Keys(SavedDependencies(progs), Dependency.Id) == Keys(deps, Dependency.Id)
  {
  }

  /** The ids as a JSON array's elements */
  function IdsJson(ids: seq<int>): (r: seq<Json>)
    ensures |r| == |ids| && forall i :: 0 <= i < |ids| ==> r[i] == JInt(ids[i])
  {
    seq(|ids|, i requires 0 <= i < |ids| => JInt(ids[i]))
  }

  /** The mapped data as a JSON object of strings */
  function MappedJson(m: map<string, string>): (r: JsonObject)
    ensures r.Keys == m.Keys && forall k :: k in m ==> r[k] == JString(m[k])
  {
    map k | k in m :: JString(m[k])
  }

  /**
   * `exportDataToJSON()`: the five keys; the programs in installed order, then the saved
   * categories and dependencies, the catalog ids and the mapped data. A program whose
   * toJSON throws makes the whole export throw (None)
   */
  function ExportOf(installed: seq<Registry.Program>, catalog: seq<Registry.Program>,
                    mapped: map<string, string>, encode: Registry.Program -> Option<JsonObject>): (r: Option<JsonObject>)
    ensures r.Some? <==> forall i :: 0 <= i < |installed| ==> encode(installed[i]).Some?
    ensures r.Some? ==> r.value.Keys == {"categories", "dependencies", "programs", "stored_program_ids", "mapped_data"}
  {
    var jsonPrograms :- DataManager.EncodeAll(installed, encode);
    Some(map["categories" := JArray(DataManager.EncodeAll(SavedCategories(installed), DataManager.CategoryJson).value),
             "dependencies" := JArray(DataManager.EncodeAll(SavedDependencies(installed), DataManager.DependencyJson).value),
             "programs" := JArray(jsonPrograms),
             "stored_program_ids" := JArray(IdsJson(KeySeq(catalog, Registry.Id))),
             "mapped_data" := JObject(MappedJson(mapped))])
  }

  /** What an import appends to each list, the mapped data it puts, and whether it ran to the end */
  datatype DataImport = DataImport(
    categories: seq<Category.Category>,
    dependencies: seq<Dependency.Dependency>,
    programs: seq<Registry.Program>,
    storedIds: seq<int>,
    mapped: map<string, string>,
    ok: bool)

  /**
   * `Program.fromJSON(obj, true)` given the installed categories and dependencies it looks
   * the stored ids up in (`DataHandler.getCategory/getDependency(id, true)`)
   */
  type Decoder = (seq<Category.Category>, seq<Dependency.Dependency>, JsonObject) -> Option<Registry.Program>

  /** `getJSONObject(i)` then `Program.fromJSON(obj, true)` against the installed lists cats and deps */
  function ParseProgram(decode: Decoder, cats: seq<Category.Category>, deps: seq<Dependency.Dependency>): Json -> Option<Registry.Program> {
    (j: Json) => if j.JObject? then decode(cats, deps, j.fields) else None
  }

  /** Every value of the object is a string, so `getString` succeeds on each key */
  predicate AllStrings(o: JsonObject) {
    forall k :: k in o ==> o[k].JString?
  }

  /** The mapped_data block: absent puts nothing; a non-object or a non-string value throws (None) */
  function MappedSection(json: JsonObject): (r: Option<map<string, string>>)
    ensures "mapped_data" !in json ==> r == Some(map[])
    ensures "mapped_data" in json ==> (r.Some? <==> json["mapped_data"].JObject? && AllStrings(json["mapped_data"].fields))
    ensures "mapped_data" in json && r.Some? ==> (r.value.Keys == json["mapped_data"].fields.Keys &&
      forall k :: k in r.value ==> json["mapped_data"].fields[k] == JString(r.value[k]))
  {
    if "mapped_data" !in json then Some(map[])
    else
      match GetObject(json, "mapped_data")
      case None => None
      case Some(o) => if AllStrings(o) then Some(map k | k in o :: o[k].s) else None
  }

  /**
   * `importDataFromJSON(json)`: the five blocks in order, each appending until its first
   * exception, which ends the import. cats0 and deps0 are the installed categories and
   * dependencies before the import; the programs block resolves ids against them followed by
   * what the two earlier blocks appended
   */
  function ImportOf(json: JsonObject, cats0: seq<Category.Category>, deps0: seq<Dependency.Dependency>,
                    decode: Decoder): (r: DataImport)
    ensures r.ok ==> MappedSection(json) == Some(r.mapped)
    ensures r.programs == [] || (DataManager.Section(json, "categories", DataManager.ParseCategory).complete &&
                                 DataManager.Section(json, "dependencies", DataManager.ParseDependency).complete)
  {
    var cats := DataManager.Section(json, "categories", DataManager.ParseCategory);
    if !cats.complete then DataImport(cats.values, [], [], [], map[], false) else
    var deps := DataManager.Section(json, "dependencies", DataManager.ParseDependency);
    if !deps.complete then DataImport(cats.values, deps.values, [], [], map[], false) else
    var progs := DataManager.Section(json, "programs", ParseProgram(decode, cats0 + cats.values, deps0 + deps.values));
    if !progs.complete then DataImport(cats.values, deps.values, progs.values, [], map[], false) else
    var ids := DataManager.Section(json, "stored_program_ids", AsInt);
    if !ids.complete then DataImport(cats.values, deps.values, progs.values, ids.values, map[], false) else
    match MappedSection(json)
    case None => DataImport(cats.values, deps.values, progs.values, ids.values, map[], false)
    case Some(m) => DataImport(cats.values, deps.values, progs.values, ids.values, m, true)
  }

  /**
   * The lookups fromJSON does find the program's own category and dependencies: each is the
   * first entry with its id in the installed lists
   */
  predicate Registered(p: Registry.Program, cats: seq<Category.Category>, deps: seq<Dependency.Dependency>) {
    FindFirst(cats, Category.Id, p.category.id) == Some(p.category) &&
    forall d :: d in p.dependencies ==> FindFirst(deps, Dependency.Id, d.id) == Some(d)
  }

  /**
   * Each installed program reads back as itself from its own JSON whenever the installed
   * lists register its category and dependencies, as Program.RoundTrip proves of the
   * program JSON of Program.java
   */
  ghost predicate Decodes(installed: seq<Registry.Program>, encode: Registry.Program -> Option<JsonObject>, decode: Decoder) {
    forall i :: 0 <= i < |installed| ==>
      encode(installed[i]).Some? &&
      forall cats, deps :: Registered(installed[i], cats, deps) ==> decode(cats, deps, encode(installed[i]).value) == Some(installed[i])
  }

  /** The installed programs agree on the category and the dependency each id stands for */
  ghost predicate Consistent(installed: seq<Registry.Program>) {
    (forall i, j :: 0 <= i < |installed| && 0 <= j < |installed| && installed[i].category.id == installed[j].category.id ==>
       installed[i].category == installed[j].category) &&
    (forall d, e :: d in AllDependencies(installed) && e in AllDependencies(installed) && d.id == e.id ==> d == e)
  }

  lemma {:induction false} AllDependenciesMembers(progs: seq<Registry.Program>, d: Dependency.Dependency)
    ensures d in AllDependencies(progs) <==> exists q :: q in progs && d in q.dependencies
    decreases |progs|
  {
    if progs != [] {
      var init := progs[..|progs| - 1];
      AllDependenciesMembers(init, d);
      assert progs == init + [progs[|progs| - 1]];
      assert forall q :: q in progs <==> q in init || q == progs[|progs| - 1];
    }
  }

  /** When the programs agree on their categories and dependencies, what the export saves registers each of them */
  lemma SavedRegistered(installed: seq<Registry.Program>)
    requires Consistent(installed)
    ensures forall i :: 0 <= i < |installed| ==> Registered(installed[i], SavedCategories(installed), SavedDependencies(installed))
  {
    var cs, ds := SavedCategories(installed), SavedDependencies(installed);
    AppendMissingSpec([], CategoriesOf(installed), Category.Id);
    AppendMissingSpec([], AllDependencies(installed), Dependency.Id);
    forall i | 0 <= i < |installed| ensures Registered(installed[i], cs, ds) {
      var p := installed[i];
      assert CategoriesOf(installed)[i] == p.category;
      assert p in installed && Registry.CategoryIdOf(p) == p.category.id;
      var c := FindFirst(cs, Category.Id, p.category.id);
      var k :| 0 <= k < |cs| && cs[k] == c.value;
      var j :| 0 <= j < |installed| && CategoriesOf(installed)[j] == c.value;
      forall d | d in p.dependencies ensures FindFirst(ds, Dependency.Id, d.id) == Some(d) {
        AllDependenciesMembers(installed, d);
        assert d in AllDependencies(installed);
        var e := FindFirst(ds, Dependency.Id, d.id);
        assert e.Some?;
        var m :| 0 <= m < |ds| && ds[m] == e.value;
      }
    }
  }

  /**
   * Importing into a registry that already holds a category with the id: fromJSON's lookup
   * finds the older entry, not the one the import appended
   */
  lemma ImportLookupShadowed(cats0: seq<Category.Category>, imported: seq<Category.Category>, id: int)
    requires id in Keys(cats0, Category.Id)
    ensures FindFirst(cats0 + imported, Category.Id, id) == FindFirst(cats0, Category.Id, id)
  {
    FindFirstConcat(cats0, imported, Category.Id, id);
  }

  /** The categories block of an export reads back as the saved categories */
  lemma CategoriesRoundTrip(json: JsonObject, cats: seq<Category.Category>)
    requires "categories" in json && json["categories"] == JArray(DataManager.EncodeAll(cats, DataManager.CategoryJson).value)
    ensures DataManager.Section(json, "categories", DataManager.ParseCategory) == DataManager.Parsed(cats, true)
  {
    var items := json["categories"].items;
    forall i | 0 <= i < |cats| ensures DataManager.ParseCategory(items[i]) == Some(cats[i]) {
      Category.RoundTrip(cats[i]);
    }
    DataManager.ParseAllExact(items, DataManager.ParseCategory, cats);
  }

  /** The dependencies block of an export reads back as the saved dependencies */
  lemma DependenciesRoundTrip(json: JsonObject, deps: seq<Dependency.Dependency>)
    requires "dependencies" in json && json["dependencies"] == JArray(DataManager.EncodeAll(deps, DataManager.DependencyJson).value)
    ensures DataManager.Section(json, "dependencies", DataManager.ParseDependency) == DataManager.Parsed(deps, true)
  {
    var items := json["dependencies"].items;
    forall i | 0 <= i < |deps| ensures DataManager.ParseDependency(items[i]) == Some(deps[i]) {
      Dependency.RoundTrip(deps[i]);
    }
    DataManager.ParseAllExact(items, DataManager.ParseDependency, deps);
  }

  /** The programs block of an export reads back as the installed programs when the installed lists register them */
  lemma ProgramsRoundTrip(json: JsonObject, installed: seq<Registry.Program>,
                          encode: Registry.Program -> Option<JsonObject>, decode: Decoder,
                          cats: seq<Category.Category>, deps: seq<Dependency.Dependency>)
    requires Decodes(installed, encode, decode)
    requires forall i :: 0 <= i < |installed| ==> Registered(installed[i], cats, deps)
    requires "programs" in json && json["programs"] == JArray(DataManager.EncodeAll(installed, encode).value)
    ensures DataManager.Section(json, "programs", ParseProgram(decode, cats, deps)) == DataManager.Parsed(installed, true)
  {
    DataManager.ParseAllExact(json["programs"].items, ParseProgram(decode, cats, deps), installed);
  }

  /** The stored_program_ids block of an export reads back as the ids */
  lemma IdsRoundTrip(json: JsonObject, ids: seq<int>)
    requires "stored_program_ids" in json && json["stored_program_ids"] == JArray(IdsJson(ids))
    ensures DataManager.Section(json, "stored_program_ids", AsInt) == DataManager.Parsed(ids, true)
  {
    DataManager.ParseAllExact(json["stored_program_ids"].items, AsInt, ids);
  }

  /** The mapped_data block of an export reads back as the mapped data */
  lemma MappedRoundTrip(json: JsonObject, mapped: map<string, string>)
    requires "mapped_data" in json && json["mapped_data"] == JObject(MappedJson(mapped))
    ensures MappedSection(json) == Some(mapped)
  {
    assert MappedSection(json).value == mapped;
  }

  /**
   * Importing an export into a registry holding cats0 and deps0 appends the saved categories
   * and dependencies, the installed programs, the catalog ids and the mapped data, and runs
   * to the end, provided the installed lists then register every exported program
   */
  lemma ExportImportInto(installed: seq<Registry.Program>, catalog: seq<Registry.Program>,
                         mapped: map<string, string>, encode: Registry.Program -> Option<JsonObject>, decode: Decoder,
                         cats0: seq<Category.Category>, deps0: seq<Dependency.Dependency>)
    requires Decodes(installed, encode, decode)
    requires forall i :: 0 <= i < |installed| ==>
      Registered(installed[i], cats0 + SavedCategories(installed), deps0 + SavedDependencies(installed))
    ensures ExportOf(installed, catalog, mapped, encode).Some?
    ensures ImportOf(ExportOf(installed, catalog, mapped, encode).value, cats0, deps0, decode) ==
      DataImport(SavedCategories(installed), SavedDependencies(installed), installed, KeySeq(catalog, Registry.Id), mapped, true)
  {
    var json := ExportOf(installed, catalog, mapped, encode).value;
    CategoriesRoundTrip(json, SavedCategories(installed));
    DependenciesRoundTrip(json, SavedDependencies(installed));
    ProgramsRoundTrip(json, installed, encode, decode, cats0 + SavedCategories(installed), deps0 + SavedDependencies(installed));
    IdsRoundTrip(json, KeySeq(catalog, Registry.Id));
    MappedRoundTrip(json, mapped);
  }

  /**
   * Importing an export into an empty registry gives back the saved categories and
   * dependencies, the installed programs, the catalog ids and the mapped data, when the
   * installed programs agree on what each category and dependency id stands for
   */
  lemma ExportImportRoundTrip(installed: seq<Registry.Program>, catalog: seq<Registry.Program>,
                              mapped: map<string, string>, encode: Registry.Program -> Option<JsonObject>, decode: Decoder)
    requires Decodes(installed, encode, decode)
    requires Consistent(installed)
    ensures ExportOf(installed, catalog, mapped, encode).Some?
    ensures ImportOf(ExportOf(installed, catalog, mapped, encode).value, [], [], decode) ==
      DataImport(SavedCategories(installed), SavedDependencies(installed), installed, KeySeq(catalog, Registry.Id), mapped, true)
  {
    SavedRegistered(installed);
    assert [] + SavedCategories(installed) == SavedCategories(installed);
    assert [] + SavedDependencies(installed) == SavedDependencies(installed);
    ExportImportInto(installed, catalog, mapped, encode, decode, [], []);
  }
}
