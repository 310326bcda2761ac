/**
 * DataHandler.java: the registry of the client. The catalog and installed categories,
 * dependencies and programs, the mapped data and the stored program ids are the fields of
 * one handler object, standing for the static fields of the class. Program.install() and
 * uninstall() are outcomes passed in (true: it returned, false: it threw IOException).
 */
module DataHandler {
  import opened Wrappers
  import opened Json
  import Category
  import Dependency
  import opened IdLists
  import Registry
  import DataManager
  import DataExchange

  /** getPrograms' filter: a null category keeps every program, another keeps those whose category equals it */
  function InCategory(category: Option<Category.Category>): Registry.Program -> bool {
    (q: Registry.Program) => category.None? || Category.Equals(category.value, Some(q.category))
  }

  /**
   * getPrograms(category): the matching installed programs in order, then each matching
   * catalog program whose id is not yet listed
   */
  function Listing(installed: seq<Registry.Program>, catalog: seq<Registry.Program>,
                   category: Option<Category.Category>): seq<Registry.Program> {
    AppendMissing(Filter(installed, InCategory(category)), Filter(catalog, InCategory(category)), Registry.Id)
  }

  /** Every listed program matches and comes from one of the two lists */
  lemma ListingMembers(installed: seq<Registry.Program>, catalog: seq<Registry.Program>,
                       category: Option<Category.Category>)
    ensures forall q :: q in Listing(installed, catalog, category) ==>
      InCategory(category)(q) && (q in installed || q in catalog)
  {
    var mine := Filter(installed, InCategory(category));
    var theirs := Filter(catalog, InCategory(category));
    var r := Listing(installed, catalog, category);
    AppendMissingPrefix(mine, theirs, Registry.Id);
    forall q | q in r ensures InCategory(category)(q) && (q in installed || q in catalog) {
      var j :| 0 <= j < |r| && r[j] == q;
      if j < |mine| {
        assert q == mine[j];
      } else {
        var k :| 0 <= k < |theirs| && theirs[k] == q;
      }
    }
  }

  /** Every matching catalog program's id is listed */
  lemma ListingCovers(installed: seq<Registry.Program>, catalog: seq<Registry.Program>,
                      category: Option<Category.Category>)
    ensures forall q :: q in catalog && InCategory(category)(q) ==> q.id in Keys(Listing(installed, catalog, category), Registry.Id)
  {
    var theirs := Filter(catalog, InCategory(category));
    AppendMissingKeys(Filter(installed, InCategory(category)), theirs, Registry.Id);
    forall q | q in catalog && InCategory(category)(q) ensures q.id in Keys(theirs, Registry.Id) {
      var k :| 0 <= k < |catalog| && catalog[k] == q;
      assert q in theirs;
    }
  }

  /**
   * The listing starts with the matching installed programs, holds only matching programs
   * of either list, lists every matching catalog id, repeats no id that the installed
   * programs do not repeat, and with no category is the plain merge of both lists
   */
  lemma ListingSpec(installed: seq<Registry.Program>, catalog: seq<Registry.Program>,
                    category: Option<Category.Category>)
    ensures var mine := Filter(installed, InCategory(category));
      |Listing(installed, catalog, category)| >= |mine| && Listing(installed, catalog, category)[..|mine|] == mine
    ensures forall q :: q in Listing(installed, catalog, category) ==>
      InCategory(category)(q) && (q in installed || q in catalog)
    ensures forall q :: q in catalog && InCategory(category)(q) ==> q.id in Keys(Listing(installed, catalog, category), Registry.Id)
    ensures DistinctKeys(Filter(installed, InCategory(category)), Registry.Id) ==>
      DistinctKeys(Listing(installed, catalog, category), Registry.Id)
    ensures category.None? ==> Listing(installed, catalog, category) == AppendMissing(installed, catalog, Registry.Id)
  {
    var mine := Filter(installed, InCategory(category));
    var theirs := Filter(catalog, InCategory(category));
    AppendMissingPrefix(mine, theirs, Registry.Id);
    if DistinctKeys(mine, Registry.Id) {
      AppendMissingDistinct(mine, theirs, Registry.Id);
    }
    ListingMembers(installed, catalog, category);
    ListingCovers(installed, catalog, category);
    if category.None? {
      FilterAll(installed, InCategory(category));
      FilterAll(catalog, InCategory(category));
    }
  }

  /** getNewPrograms' filter: the id is not among the stored ones */
  function NotStored(stored: seq<int>): Registry.Program -> bool {
    (q: Registry.Program) => q.id !in stored
  }

  /** getNewPrograms(): nothing while no ids are stored, else the catalog programs whose id is not stored */
  function NewPrograms(catalog: seq<Registry.Program>, stored: seq<int>): (r: seq<Registry.Program>)
    ensures stored == [] ==> r == []
    ensures stored != [] ==> forall q :: q in r <==> q in catalog && q.id !in stored
  {
    if stored == [] then [] else Filter(catalog, NotStored(stored))
  }

  /** Once an export stores the catalog's ids, no program of that catalog is new */
  lemma NoNewProgramsAfterExport(catalog: seq<Registry.Program>)
    ensures NewPrograms(catalog, KeySeq(catalog, Registry.Id)) == []
  {
  }

  /** The mapped data a failed import may already have put: string values of mapped_data, under its keys */
  predicate MappedPart(json: JsonObject, part: map<string, string>) {
    part == map[] || ("mapped_data" in json && json["mapped_data"].JObject? && StringsOf(json["mapped_data"].fields, part))
  }

  class DataHandler {
    var categories: seq<Category.Category>
    var dependencies: seq<Dependency.Dependency>
    var programs: seq<Registry.Program>
    var installedCategories: seq<Category.Category>
    var installedDependencies: seq<Dependency.Dependency>
    var installedPrograms: seq<Registry.Program>
    var mappedData: map<string, string>
    var storedProgramIDs: seq<int>

    constructor ()
      ensures categories == [] && dependencies == [] && programs == []
      ensures installedCategories == [] && installedDependencies == [] && installedPrograms == []
      ensures mappedData == map[] && storedProgramIDs == []
    {
      categories, dependencies, programs := [], [], [];
      installedCategories, installedDependencies, installedPrograms := [], [], [];
      mappedData, storedProgramIDs := map[], [];
    }

    /** The installed partition is reference-counted */
    predicate RefCounted()
      reads this
    {
      Registry.RefCounted(installedCategories, installedDependencies, installedPrograms)
    }

    /** `addCategory(category, installed)`: appends to the chosen list; nothing else changes */
    method AddCategory(category: Category.Category, installed: bool)
      modifies this`categories, this`installedCategories
      ensures installed ==> installedCategories == old(installedCategories) + [category] && categories == old(categories)
      ensures !installed ==> categories == old(categories) + [category] && installedCategories == old(installedCategories)
    {
      if installed {
        installedCategories := installedCategories + [category];
      } else {
        categories := categories + [category];
      }
    }

    /** `getCategory(id, installed)`: the first category with the id in the chosen list, or null */
    method GetCategory(id: int, installed: bool) returns (r: Option<Category.Category>)
      ensures r == FindFirst(if installed then installedCategories else categories, Category.Id, id)
    {
      r := Find(if installed then installedCategories else categories, Category.Id, id);
    }

    /** `getCategories()`: the installed categories, then each catalog category whose id is not yet listed */
    method GetCategories() returns (r: seq<Category.Category>)
      ensures r == AppendMissing(installedCategories, categories, Category.Id)
    {
      r := [];
      for i := 0 to |installedCategories|
        invariant r == installedCategories[..i]
      {
        r := r + [installedCategories[i]];
      }
      assert installedCategories[..|installedCategories|] == installedCategories;
      r := AddMissing(r, categories, Category.Id);
    }

    /** `addDependency(dependency, installed)`: appends to the chosen list; nothing else changes */
    method AddDependency(dependency: Dependency.Dependency, installed: bool)
      modifies this`dependencies, this`installedDependencies
      ensures installed ==> installedDependencies == old(installedDependencies) + [dependency] && dependencies == old(dependencies)
      ensures !installed ==> dependencies == old(dependencies) + [dependency] && installedDependencies == old(installedDependencies)
    {
      if installed {
        installedDependencies := installedDependencies + [dependency];
      } else {
        dependencies := dependencies + [dependency];
      }
    }

    /** `getDependency(id, installed)`: the first dependency with the id in the chosen list, or null */
    method GetDependency(id: int, installed: bool) returns (r: Option<Dependency.Dependency>)
      ensures r == FindFirst(if installed then installedDependencies else dependencies, Dependency.Id, id)
    {
      r := Find(if installed then installedDependencies else dependencies, Dependency.Id, id);
    }

    /** `addProgram(program, installed)`: appends to the chosen list; nothing else changes */
    method AddProgram(program: Registry.Program, installed: bool)
      modifies this`programs, this`installedPrograms
      ensures installed ==> installedPrograms == old(installedPrograms) + [program] && programs == old(programs)
      ensures !installed ==> programs == old(programs) + [program] && installedPrograms == old(installedPrograms)
    {
      if installed {
        installedPrograms := installedPrograms + [program];
      } else {
        programs := programs + [program];
      }
    }

    /** `getProgram(id, installed)`: the first program with the id in the chosen list, or null */
    method GetProgram(id: int, installed: bool) returns (r: Option<Registry.Program>)
      ensures r == FindFirst(if installed then installedPrograms else programs, Registry.Id, id)
    {
      r := Find(if installed then installedPrograms else programs, Registry.Id, id);
    }

    /**
     * `installProgram(program)`: when program.install() returns, the category and each
     * dependency are added unless their id is installed, and the program is appended;
     * when it throws, nothing changes. The reference count is kept
     */
    method InstallProgram(program: Registry.Program, installOk: bool) returns (ok: bool)
      modifies this`installedCategories, this`installedDependencies, this`installedPrograms
      ensures ok == installOk
      ensures !ok ==> (installedCategories == old(installedCategories) &&
        installedDependencies == old(installedDependencies) && installedPrograms == old(installedPrograms))
      ensures ok ==> installedCategories == Registry.InstallCategories(old(installedCategories), program)
      ensures ok ==> installedDependencies == Registry.InstallDependencies(old(installedDependencies), program)
      ensures ok ==> installedPrograms == old(installedPrograms) + [program]
      ensures old(RefCounted()) ==> RefCounted()
    {
      if old(RefCounted()) {
        Registry.InstallKeepsRefCount(installedCategories, installedDependencies, installedPrograms, program);
      }
      if !installOk {
        return false;
      }
      if Category.Id(program.category) !in Keys(installedCategories, Category.Id) {
        installedCategories := installedCategories + [program.category];
      }
      installedDependencies := AddMissing(installedDependencies, program.dependencies, Dependency.Id);
      installedPrograms := installedPrograms + [program];
      ok := true;
    }

    /**
     * `uninstallProgram(program)`: when program.uninstall() returns, the first installed
     * program with its id goes; the category goes unless a remaining program shares it;
     * dependencies still referred to are deleted from the program's own map (the returned
     * program) and every other dependency of the program is removed from the installed list.
     * When it throws, nothing changes. An uninstalled program keeps the reference count
     */
    method UninstallProgram(program: Registry.Program, uninstallOk: bool) returns (ok: bool, after: Registry.Program)
      modifies this`installedCategories, this`installedDependencies, this`installedPrograms
      ensures ok == uninstallOk
      ensures !ok ==> (after == program && installedCategories == old(installedCategories) &&
        installedDependencies == old(installedDependencies) && installedPrograms == old(installedPrograms))
      ensures ok ==> installedPrograms == Registry.Remaining(old(installedPrograms), program)
      ensures ok ==> installedCategories == Registry.UninstallCategories(old(installedCategories), program, installedPrograms)
      ensures ok ==> installedDependencies == Registry.UninstallDependencies(old(installedDependencies), program, installedPrograms)
      ensures ok ==> after == program.(dependencies := Registry.Pruned(program, installedPrograms))
      ensures old(RefCounted() && DistinctKeys(installedPrograms, Registry.Id) && program in installedPrograms) ==> RefCounted()
    {
      if old(RefCounted() && DistinctKeys(installedPrograms, Registry.Id) && program in installedPrograms) {
        Registry.UninstallKeepsRefCount(installedCategories, installedDependencies, installedPrograms, program);
      }
      if !uninstallOk {
        return false, program;
      }
      var rest, _ := Remove(installedPrograms, Registry.Id, program.id);
      installedPrograms := rest;
      var category, deps := ScanRemaining(program, rest);
      if category.Some? {
        var cats, _ := Remove(installedCategories, Category.Id, category.value.id);
        installedCategories := cats;
      }
      installedDependencies := RemoveAll(installedDependencies, deps);
      ok, after := true, program.(dependencies := deps);
    }

    /**
     * `getPrograms(category)`: the matching installed programs, then each matching
     * catalog program whose id is not yet listed
     */
    method GetPrograms(category: Option<Category.Category>) returns (r: seq<Registry.Program>)
      ensures r == Listing(installedPrograms, programs, category)
    {
      var mine := Select(installedPrograms, InCategory(category));
      r := AddMissingWhere(mine, programs, InCategory(category), Registry.Id);
    }

    /** `setMappedData(key, value)`: the key now maps to the value; no other key changes */
    method SetMappedData(key: string, value: string)
      modifies this`mappedData
      ensures GetMappedData(key) == Some(value)
      ensures forall k :: k != key ==> GetMappedData(k) == old(GetMappedData(k))
    {
      mappedData := mappedData[key := value];
    }

    /** `getMappedData(key)`: the value under the key, or null */
    function GetMappedData(key: string): (r: Option<string>)
      reads this
      ensures r.Some? <==> HasMappedData(key)
      ensures r.Some? ==> r.value == mappedData[key]
    {
      if key in mappedData then Some(mappedData[key]) else None
    }

    /** `hasMappedData(key)` */
    predicate HasMappedData(key: string)
      reads this
    {
      key in mappedData
    }

    /** `getNewPrograms()`: nothing while no ids are stored, else the catalog programs whose id is not stored */
    method GetNewPrograms() returns (r: seq<Registry.Program>)
      ensures r == NewPrograms(programs, storedProgramIDs)
    {
      r := [];
      if storedProgramIDs == [] {
        return;
      }
      r := Select(programs, NotStored(storedProgramIDs));
    }

    /**
     * `markDetachedPrograms()`: every installed program is detached exactly when no catalog
     * program has its id; nothing else about it, and no other list, changes
     */
    method MarkDetachedPrograms()
      modifies this`installedPrograms
      ensures |installedPrograms| == |old(installedPrograms)|
      ensures forall i :: 0 <= i < |installedPrograms| ==>
        installedPrograms[i] == old(installedPrograms[i]).(detached := installedPrograms[i].detached)
      ensures forall i :: 0 <= i < |installedPrograms| ==>
        (installedPrograms[i].detached <==> installedPrograms[i].id !in Keys(programs, Registry.Id))
    {
      for i := 0 to |installedPrograms|
        invariant |installedPrograms| == |old(installedPrograms)|
        invariant forall k :: i <= k < |installedPrograms| ==> installedPrograms[k] == old(installedPrograms[k])
        invariant forall k :: 0 <= k < i ==>
          installedPrograms[k] == old(installedPrograms[k]).(detached := installedPrograms[k].detached)
        invariant forall k :: 0 <= k < i ==>
          (installedPrograms[k].detached <==> installedPrograms[k].id !in Keys(programs, Registry.Id))
      {
        var program := installedPrograms[i];
        var detached := true;
        for j := 0 to |programs|
          invariant detached
          invariant forall m :: 0 <= m < j ==> programs[m].id != program.id
        {
          if programs[j].id == program.id {
            assert programs[j] in programs;
            detached := false;
            break;
          }
        }
        if detached {
          assert forall q :: q in programs ==> q.id != program.id;
        }
        installedPrograms := installedPrograms[i := program.(detached := detached)];
      }
    }

    /** `exportDataToJSON()`: see DataExchange.ExportOf */
    method ExportData(encode: Registry.Program -> Option<JsonObject>) returns (json: Option<JsonObject>)
      ensures json == DataExchange.ExportOf(installedPrograms, programs, mappedData, encode)
    {
      var jsonPrograms, saved, savedDependencies := SaveInstalled(installedPrograms, encode);
      if jsonPrograms.None? {
        return None;
      }
      var jsonCategories := DataManager.EncodeList(saved, DataManager.CategoryJson);
      var jsonDependencies := DataManager.EncodeList(savedDependencies, DataManager.DependencyJson);
      var ids := EncodeIds(programs);
      var jsonMapped := EncodeMapped(mappedData);
      json := Some(map["categories" := JArray(jsonCategories.value),
                       "dependencies" := JArray(jsonDependencies.value),
                       "programs" := JArray(jsonPrograms.value),
                       "stored_program_ids" := JArray(ids),
                       "mapped_data" := JObject(jsonMapped)]);
    }

    /**
     * `importDataFromJSON(json)`: see DataExchange.ImportOf. Each list gains what its block
     * parsed; the mapped data gains the whole mapped_data block when the import runs to the
     * end, and otherwise a part of it (the keys put before the exception)
     */
    method ImportData(json: JsonObject, decode: DataExchange.Decoder) returns (ok: bool)
      modifies this`installedCategories, this`installedDependencies, this`installedPrograms,
               this`storedProgramIDs, this`mappedData
      ensures ok == DataExchange.ImportOf(json, old(installedCategories), old(installedDependencies), decode).ok
      ensures installedCategories == old(installedCategories) + DataExchange.ImportOf(json, old(installedCategories), old(installedDependencies), decode).categories
      ensures installedDependencies == old(installedDependencies) + DataExchange.ImportOf(json, old(installedCategories), old(installedDependencies), decode).dependencies
      ensures installedPrograms == old(installedPrograms) + DataExchange.ImportOf(json, old(installedCategories), old(installedDependencies), decode).programs
      ensures storedProgramIDs == old(storedProgramIDs) + DataExchange.ImportOf(json, old(installedCategories), old(installedDependencies), decode).storedIds
      ensures ok ==> mappedData == old(mappedData) + DataExchange.ImportOf(json, old(installedCategories), old(installedDependencies), decode).mapped
      ensures !ok ==> exists part :: MappedPart(json, part) && mappedData == old(mappedData) + part
    {
      ok := ImportLists(json, decode);
      if !ok {
        assert MappedPart(json, map[]) && mappedData == old(mappedData) + map[];
        return;
      }
      ok := ImportMapped(json);
    }

    /** The four list blocks of importDataFromJSON */
    method ImportLists(json: JsonObject, decode: DataExchange.Decoder) returns (ok: bool)
      modifies this`installedCategories, this`installedDependencies, this`installedPrograms, this`storedProgramIDs
      ensures installedCategories == old(installedCategories) + DataExchange.ImportOf(json, old(installedCategories), old(installedDependencies), decode).categories
      ensures installedDependencies == old(installedDependencies) + DataExchange.ImportOf(json, old(installedCategories), old(installedDependencies), decode).dependencies
      ensures installedPrograms == old(installedPrograms) + DataExchange.ImportOf(json, old(installedCategories), old(installedDependencies), decode).programs
      ensures storedProgramIDs == old(storedProgramIDs) + DataExchange.ImportOf(json, old(installedCategories), old(installedDependencies), decode).storedIds
      ensures ok ==> DataExchange.ImportOf(json, old(installedCategories), old(installedDependencies), decode).ok == DataExchange.MappedSection(json).Some?
      ensures !ok ==> !DataExchange.ImportOf(json, old(installedCategories), old(installedDependencies), decode).ok
    {
      var cats := DataManager.ReadSection(json, "categories", DataManager.ParseCategory);
      installedCategories := installedCategories + cats.values;
      if !cats.complete {
        installedDependencies := installedDependencies + [];
        installedPrograms := installedPrograms + [];
        storedProgramIDs := storedProgramIDs + [];
        return false;
      }
      var deps := DataManager.ReadSection(json, "dependencies", DataManager.ParseDependency);
      installedDependencies := installedDependencies + deps.values;
      if !deps.complete {
        installedPrograms := installedPrograms + [];
        storedProgramIDs := storedProgramIDs + [];
        return false;
      }
      var progs := DataManager.ReadSection(json, "programs", DataExchange.ParseProgram(decode, installedCategories, installedDependencies));
      installedPrograms := installedPrograms + progs.values;
      if !progs.complete {
        storedProgramIDs := storedProgramIDs + [];
        return false;
      }
      var ids := DataManager.ReadSection(json, "stored_program_ids", AsInt);
      storedProgramIDs := storedProgramIDs + ids.values;
      ok := ids.complete;
    }

    /** The mapped_data block: puts `getString(key)` under each key in turn, stopping at the first exception */
    method ImportMapped(json: JsonObject) returns (ok: bool)
      modifies this`mappedData
      ensures ok == DataExchange.MappedSection(json).Some?
      ensures ok ==> mappedData == old(mappedData) + DataExchange.MappedSection(json).value
      ensures !ok ==> exists part :: MappedPart(json, part) && mappedData == old(mappedData) + part
    {
      if "mapped_data" !in json {
        assert mappedData == old(mappedData) + map[];
        return true;
      }
      var o := GetObject(json, "mapped_data");
      if o.None? {
        assert MappedPart(json, map[]) && mappedData == old(mappedData) + map[];
        return false;
      }
      ghost var put;
      mappedData, ok, put := PutStrings(mappedData, o.value);
      assert MappedPart(json, put);
      assert ok ==> put == DataExchange.MappedSection(json).value;
    }
  }

  /** Every entry of part is a string value of source under the same key */
  predicate StringsOf(source: JsonObject, part: map<string, string>) {
    forall k :: k in part ==> k in source && source[k] == JString(part[k])
  }

  /**
   * The mapped_data loop of importDataFromJSON: `put(key, getString(key))` for each key in
   * turn; a value that is not a string throws, after the keys before it were put
   */
  method PutStrings(target: map<string, string>, source: JsonObject)
    returns (r: map<string, string>, ok: bool, ghost put: map<string, string>)
    ensures ok == DataExchange.AllStrings(source)
    ensures StringsOf(source, put) && r == target + put
    ensures ok ==> put.Keys == source.Keys
  {
    r := target;
    put := map[];
    var keys := source.Keys;
    while keys != {}
      invariant keys <= source.Keys
      invariant put.Keys == source.Keys - keys
      invariant StringsOf(source, put)
      invariant r == target + put
      decreases keys
    {
      var key :| key in keys;
      var value := GetString(source, key);
      if value.None? {
        return r, false, put;
      }
      r := r[key := value.value];
      put := put[key := value.value];
      keys := keys - {key};
    }
    ok := true;
  }

  /**
   * uninstallProgram's scan of the remaining programs: the category survives unless one of
   * them shares it, and every dependency one of them refers to is deleted from the map
   */
  method ScanRemaining(program: Registry.Program, rest: seq<Registry.Program>)
    returns (category: Option<Category.Category>, deps: seq<Dependency.Dependency>)
    ensures category == if Registry.CategoryShared(rest, program) then None else Some(program.category)
    ensures deps == Registry.Pruned(program, rest)
  {
    category := Some(program.category);
    deps := program.dependencies;
    assert rest[..0] == [];
    assert Registry.DependencyIds([]) == {};
    WithoutNone(program.dependencies, Dependency.Id, {});
    for i := 0 to |rest|
      invariant category == if program.category.id in Keys(rest[..i], Registry.CategoryIdOf) then None else Some(program.category)
      invariant deps == Without(program.dependencies, Dependency.Id, Registry.DependencyIds(rest[..i]))
    {
      var check := rest[i];
      assert rest[..i + 1] == rest[..i] + [check];
      KeysAppend(rest[..i], [check], Registry.CategoryIdOf);
      KeysOne(check, Registry.CategoryIdOf);
      Registry.DependencyIdsAppend(rest[..i], [check]);
      Registry.DependencyIdsOne(check);
      if Category.Equals(check.category, category) {
        category := None;
      }
      WithoutWithout(program.dependencies, Dependency.Id, Registry.DependencyIds(rest[..i]), Keys(check.dependencies, Dependency.Id));
      deps := RemoveKeys(deps, check.dependencies);
    }
    assert rest[..|rest|] == rest;
  }

  /** The inner loop: every dependency of check that the map holds is removed from it */
  method RemoveKeys(deps: seq<Dependency.Dependency>, check: seq<Dependency.Dependency>) returns (r: seq<Dependency.Dependency>)
    ensures r == Without(deps, Dependency.Id, Keys(check, Dependency.Id))
  {
    r := deps;
    assert Keys(check[..0], Dependency.Id) == {};
    WithoutNone(deps, Dependency.Id, {});
    for j := 0 to |check|
      invariant r == Without(deps, Dependency.Id, Keys(check[..j], Dependency.Id))
    {
      var d := check[j];
      assert check[..j + 1] == check[..j] + [d];
      WithoutStep(deps, Dependency.Id, check[..j], d, r);
      if d.id in Keys(r, Dependency.Id) {
        r := Without(r, Dependency.Id, {d.id});
      }
    }
    assert check[..|check|] == check;
  }

  /** The final loop of uninstallProgram: `installedDependencies.remove(dependency)` for each left in the map */
  method RemoveAll(installed: seq<Dependency.Dependency>, deps: seq<Dependency.Dependency>) returns (r: seq<Dependency.Dependency>)
    ensures r == RemoveEach(installed, Dependency.Id, KeySeq(deps, Dependency.Id))
  {
    var ids := KeySeq(deps, Dependency.Id);
    r := installed;
    for k := 0 to |deps|
      invariant RemoveEach(r, Dependency.Id, ids[k..]) == RemoveEach(installed, Dependency.Id, ids)
    {
      assert ids[k..][1..] == ids[k + 1..];
      var rest, _ := Remove(r, Dependency.Id, deps[k].id);
      r := rest;
    }
  }

  /**
   * The loop over the installed programs in exportDataToJSON: each program's JSON, and the
   * categories and dependencies to save; a program whose toJSON throws ends it (None)
   */
  method SaveInstalled(installed: seq<Registry.Program>, encode: Registry.Program -> Option<JsonObject>)
    returns (jsonPrograms: Option<seq<Json>>, saved: seq<Category.Category>, savedDependencies: seq<Dependency.Dependency>)
    ensures jsonPrograms == DataManager.EncodeAll(installed, encode)
    ensures jsonPrograms.Some? ==> saved == DataExchange.SavedCategories(installed)
    ensures jsonPrograms.Some? ==> savedDependencies == DataExchange.SavedDependencies(installed)
  {
    var items: seq<Json> := [];
    saved, savedDependencies := [], [];
    for i := 0 to |installed|
      invariant DataManager.EncodeAll(installed[..i], encode) == Some(items)
      invariant saved == AppendMissing([], DataExchange.CategoriesOf(installed[..i]), Category.Id)
      invariant savedDependencies == AppendMissing([], DataExchange.AllDependencies(installed[..i]), Dependency.Id)
    {
      var program := installed[i];
      DataManager.EncodeAllSnoc(installed[..i], program, encode);
      assert installed[..i + 1] == installed[..i] + [program];
      DataExchange.ExportStep(installed, i);
      AppendMissingSnoc([], DataExchange.CategoriesOf(installed[..i]), program.category, Category.Id);
      AppendMissingConcat([], DataExchange.AllDependencies(installed[..i]), program.dependencies, Dependency.Id);
      var o := encode(program);
      if o.None? {
        DataManager.EncodeAllPrefixFails(installed, i + 1, encode);
        return None, saved, savedDependencies;
      }
      items := items + [JObject(o.value)];
      if Category.Id(program.category) !in Keys(saved, Category.Id) {
        saved := saved + [program.category];
      }
      savedDependencies := AddMissing(savedDependencies, program.dependencies, Dependency.Id);
    }
    assert installed[..|installed|] == installed;
    jsonPrograms := Some(items);
  }

  /** The stored_program_ids loop: each catalog program's id, in order */
  method EncodeIds(catalog: seq<Registry.Program>) returns (ids: seq<Json>)
    ensures ids == DataExchange.IdsJson(KeySeq(catalog, Registry.Id))
  {
    ids := [];
    for i := 0 to |catalog|
      invariant ids == DataExchange.IdsJson(KeySeq(catalog[..i], Registry.Id))
    {
      ids := ids + [JInt(catalog[i].id)];
    }
    assert catalog[..|catalog|] == catalog;
  }

  /** The mapped_data loop: puts each key's value into a fresh JSON object */
  method EncodeMapped(m: map<string, string>) returns (o: JsonObject)
    ensures o == DataExchange.MappedJson(m)
  {
    o := map[];
    var keys := m.Keys;
    while keys != {}
      invariant keys <= m.Keys
      invariant o.Keys == m.Keys - keys && forall k :: k in o ==> o[k] == JString(m[k])
      decreases keys
    {
      var key :| key in keys;
      o := o[key := JString(m[key])];
      keys := keys - {key};
    }
  }
}
