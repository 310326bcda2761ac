/**
 * DataManager.java: the older registry. It keeps the catalog and the installed categories,
 * dependencies and programs in six lists (the fields of one manager object stand for its
 * static lists), with add, lookup and remove by id and an export/import of the installed
 * partition as one JSON object. Program.fromJSON resolves ids through a registry, which the
 * import takes as a parameter.
 */
module DataManager {
  import opened Wrappers
  import opened Json
  import Category
  import Dependency
  import Program
  import InstalledProgram
  import IdLists

  /** What one import loop appended, and whether it ran to the end without an exception */
  datatype Parsed<T> = Parsed(values: seq<T>, complete: bool)

  /** A for loop over a JSON array that appends `parse(element)` until the first element whose parse throws */
  function ParseAll<T>(items: seq<Json>, parse: Json -> Option<T>): (r: Parsed<T>)
    ensures |r.values| <= |items|
    ensures forall i :: 0 <= i < |r.values| ==> parse(items[i]) == Some(r.values[i])
    ensures r.complete <==> |r.values| == |items|
    ensures !r.complete ==> parse(items[|r.values|]).None?
  {
    if items == [] then Parsed([], true)
    else
      match parse(items[0])
      case None => Parsed([], false)
      case Some(v) =>
        var rest := ParseAll(items[1..], parse);
        Parsed([v] + rest.values, rest.complete)
  }

  /** The loop completes exactly when every element parses */
  lemma ParseAllComplete<T>(items: seq<Json>, parse: Json -> Option<T>)
    ensures ParseAll(items, parse).complete <==> forall i :: 0 <= i < |items| ==> parse(items[i]).Some?
  {
    var r := ParseAll(items, parse);
    if !r.complete {
      assert parse(items[|r.values|]).None?;
    }
  }

  /** When each element parses to the matching value, the loop appends exactly those values */
  lemma {:induction false} ParseAllExact<T>(items: seq<Json>, parse: Json -> Option<T>, values: seq<T>)
    requires |items| == |values|
    requires forall i :: 0 <= i < |items| ==> parse(items[i]) == Some(values[i])
    ensures ParseAll(items, parse) == Parsed(values, true)
  {
    if items != [] {
      ParseAllExact(items[1..], parse, values[1..]);
      assert values == [values[0]] + values[1..];
    }
  }

  /** One section of the import: no key appends nothing; a key that is not an array throws before the loop */
  function Section<T>(json: JsonObject, key: string, parse: Json -> Option<T>): Parsed<T> {
    if key in json then
      match GetArray(json, key)
      case None => Parsed([], false)
      case Some(items) => ParseAll(items, parse)
    else Parsed([], true)
  }

  /** `getJSONObject(i)` then `Category.fromJSON(obj)` */
  function ParseCategory(j: Json): Option<Category.Category> {
    if j.JObject? then Category.FromJson(j.fields) else None
  }

  /** `getJSONObject(i)` then `Dependency.fromJSON(obj)` */
  function ParseDependency(j: Json): Option<Dependency.Dependency> {
    if j.JObject? then Dependency.FromJson(j.fields) else None
  }

  /** What an import appends to each installed list, and whether it finished */
  datatype Import = Import(
    categories: seq<Category.Category>,
    dependencies: seq<Dependency.Dependency>,
    programs: seq<InstalledProgram.InstalledProgram>,
    ok: bool)

  /** The three sections in order; an exception in one leaves the later sections unread */
  function ImportOf(json: JsonObject, parseProgram: Json -> Option<InstalledProgram.InstalledProgram>): (r: Import)
    ensures r.ok ==> Section(json, "categories", ParseCategory).complete && Section(json, "dependencies", ParseDependency).complete
    ensures r.categories == Section(json, "categories", ParseCategory).values
  {
    var c := Section(json, "categories", ParseCategory);
    if !c.complete then Import(c.values, [], [], false)
    else
      var d := Section(json, "dependencies", ParseDependency);
      if !d.complete then Import(c.values, d.values, [], false)
      else
        var p := Section(json, "programs", parseProgram);
        Import(c.values, d.values, p.values, p.complete)
  }

  /** The program loop as written: the element must be an object, but the program is built from the whole import object */
  function ParseProgramAsWritten(json: JsonObject, reg: Program.Registry): Json -> Option<InstalledProgram.InstalledProgram> {
    (j: Json) => if j.JObject? then InstalledProgram.FromJson(json, reg) else None
  }

  /** The program loop as evidently intended: each program is built from its own element */
  function ParseProgram(reg: Program.Registry): Json -> Option<InstalledProgram.InstalledProgram> {
    (j: Json) => if j.JObject? then InstalledProgram.FromJson(j.fields, reg) else None
  }

  /** The import as written appends the same program, read from the top-level object, once per element of "programs" */
  lemma ImportAsWrittenRepeats(json: JsonObject, reg: Program.Registry)
    ensures var r := ImportOf(json, ParseProgramAsWritten(json, reg));
      forall i :: 0 <= i < |r.programs| ==> Some(r.programs[i]) == InstalledProgram.FromJson(json, reg)
  {
    var c := Section(json, "categories", ParseCategory);
    var d := Section(json, "dependencies", ParseDependency);
    if c.complete && d.complete && "programs" in json && GetArray(json, "programs").Some? {
      var items := GetArray(json, "programs").value;
      var p := ParseAll(items, ParseProgramAsWritten(json, reg));
      forall i | 0 <= i < |p.values| ensures Some(p.values[i]) == InstalledProgram.FromJson(json, reg) {
        assert ParseProgramAsWritten(json, reg)(items[i]) == Some(p.values[i]);
      }
    }
  }

  /** An export holding one program with id 5 is imported, as written, as a program with id 0 and the default fields */
  lemma ImportAsWrittenLosesPrograms(reg: Program.Registry)
    ensures var json := map["programs" := JArray([JObject(map["id" := JInt(5)])])];
      var asWritten := ImportOf(json, ParseProgramAsWritten(json, reg));
      var corrected := ImportOf(json, ParseProgram(reg));
      && asWritten.ok && |asWritten.programs| == 1 && asWritten.programs[0].program.id == 0
      && corrected.ok && |corrected.programs| == 1 && corrected.programs[0].program.id == 5
  {
    var element: JsonObject := map["id" := JInt(5)];
    var json: JsonObject := map["programs" := JArray([JObject(element)])];
    Program.FromJsonReads(json, true, reg, Program.Program(0, None, "", "", "", "", "", "", "", None, [], true));
    Program.FromJsonReads(element, true, reg, Program.Program(5, None, "", "", "", "", "", "", "", None, [], true));
    assert ParseAll([JObject(element)], ParseProgramAsWritten(json, reg)).values[0].program.id == 0;
    assert ParseAll([JObject(element)], ParseProgram(reg)).values[0].program.id == 5;
  }

  /**
   * On an actual export holding a dependency and a program, the import as written throws:
   * reading the top-level object as a program meets its "dependencies" array of objects where
   * fromJSON expects integer ids, so no program is imported
   */
  lemma ImportAsWrittenThrowsOnExport(categories: seq<Category.Category>, dependencies: seq<Dependency.Dependency>,
                                      programs: seq<InstalledProgram.InstalledProgram>, reg: Program.Registry)
    requires ExportOf(categories, dependencies, programs).Some?
    requires |dependencies| > 0 && |programs| > 0
    ensures var json := ExportOf(categories, dependencies, programs).value;
      var r := ImportOf(json, ParseProgramAsWritten(json, reg));
      !r.ok && r.programs == []
  {
    var json := ExportOf(categories, dependencies, programs).value;
    var deps := json["dependencies"].items;
    assert deps[0] == JObject(DependencyJson(dependencies[0]).value);
    assert Program.ResolveDependencies(deps, true, reg).None?;
    Program.FromJsonNeedsDependencies(json, true, reg);
    var parse := ParseProgramAsWritten(json, reg);
    var items := json["programs"].items;
    assert parse(items[0]).None?;
    var p := ParseAll(items, parse);
    assert !p.complete && p.values == [];
  }

  /** The JSON of each list entry, in order; an entry whose toJSON throws makes the whole export throw */
  function EncodeAll<T>(xs: seq<T>, toJson: T -> Option<JsonObject>): (r: Option<seq<Json>>)
    ensures r.Some? <==> forall i :: 0 <= i < |xs| ==> toJson(xs[i]).Some?
    ensures r.Some? ==> (|r.value| == |xs| &&
      forall i :: 0 <= i < |xs| ==> r.value[i] == JObject(toJson(xs[i]).value))
  {
    if xs == [] then Some([])
    else
      match toJson(xs[0])
      case None => None
      case Some(o) =>
        match EncodeAll(xs[1..], toJson)
        case None => None
        case Some(rest) => Some([JObject(o)] + rest)
  }

  function CategoryJson(c: Category.Category): Option<JsonObject> {
    Some(Category.ToJson(c))
  }

  function DependencyJson(d: Dependency.Dependency): Option<JsonObject> {
    Some(Dependency.ToJson(d))
  }

  /** `exportInstalledProgramsToJSON()`: one array per installed list, one element per entry in list order */
  function ExportOf(categories: seq<Category.Category>, dependencies: seq<Dependency.Dependency>,
                    programs: seq<InstalledProgram.InstalledProgram>): (r: Option<JsonObject>)
    ensures r.Some? <==> forall i :: 0 <= i < |programs| ==> InstalledProgram.ToJson(programs[i]).Some?
    ensures r.Some? ==> r.value.Keys == {"categories", "dependencies", "programs"}
    ensures r.Some? ==> (r.value["categories"].JArray? && |r.value["categories"].items| == |categories| &&
      forall i :: 0 <= i < |categories| ==> r.value["categories"].items[i] == JObject(Category.ToJson(categories[i])))
    ensures r.Some? ==> (r.value["dependencies"].JArray? && |r.value["dependencies"].items| == |dependencies| &&
      forall i :: 0 <= i < |dependencies| ==> r.value["dependencies"].items[i] == JObject(Dependency.ToJson(dependencies[i])))
    ensures r.Some? ==> (r.value["programs"].JArray? && |r.value["programs"].items| == |programs| &&
      forall i :: 0 <= i < |programs| ==> r.value["programs"].items[i] == JObject(InstalledProgram.ToJson(programs[i]).value))
  {
    var jsonCategories := EncodeAll(categories, CategoryJson).value;
    var jsonDependencies := EncodeAll(dependencies, DependencyJson).value;
    var jsonPrograms :- EncodeAll(programs, InstalledProgram.ToJson);
    Some(map["categories" := JArray(jsonCategories), "dependencies" := JArray(jsonDependencies),
             "programs" := JArray(jsonPrograms)])
  }

  /**
   * Each program can be written, and the installed partition of the registry registers its
   * category and each of its dependencies first under their ids
   */
  predicate ProgramsRegistered(programs: seq<InstalledProgram.InstalledProgram>, reg: Program.Registry) {
    forall i :: 0 <= i < |programs| ==>
      InstalledProgram.ToJson(programs[i]).Some? && programs[i].program.category.Some? &&
      Program.LookupCategory(reg, programs[i].program.category.value.id, true) == programs[i].program.category &&
      forall k :: 0 <= k < |programs[i].program.dependencies| ==>
        programs[i].program.dependencies[k].Some? &&
        Program.LookupDependency(reg, programs[i].program.dependencies[k].value.id, true) == programs[i].program.dependencies[k]
  }

  /** The installed programs marked installed, as fromJSON marks them */
  function MarkInstalled(programs: seq<InstalledProgram.InstalledProgram>): (r: seq<InstalledProgram.InstalledProgram>)
    ensures |r| == |programs|
    ensures forall i :: 0 <= i < |programs| ==>
      r[i] == InstalledProgram.InstalledProgram(programs[i].program.(installed := true), programs[i].files)
  {
    seq(|programs|, i requires 0 <= i < |programs| =>
      InstalledProgram.InstalledProgram(programs[i].program.(installed := true), programs[i].files))
  }

  /** Importing an export, as evidently intended, appends the exported lists unchanged, the programs marked installed */
  lemma ExportImportRoundTrip(categories: seq<Category.Category>, dependencies: seq<Dependency.Dependency>,
                              programs: seq<InstalledProgram.InstalledProgram>, reg: Program.Registry)
    requires ProgramsRegistered(programs, reg)
    ensures ExportOf(categories, dependencies, programs).Some?
    ensures ImportOf(ExportOf(categories, dependencies, programs).value, ParseProgram(reg)) ==
      Import(categories, dependencies, MarkInstalled(programs), true)
  {
    var json := ExportOf(categories, dependencies, programs).value;
    forall i | 0 <= i < |categories| ensures ParseCategory(json["categories"].items[i]) == Some(categories[i]) {
      Category.RoundTrip(categories[i]);
    }
    ParseAllExact(json["categories"].items, ParseCategory, categories);
    forall i | 0 <= i < |dependencies| ensures ParseDependency(json["dependencies"].items[i]) == Some(dependencies[i]) {
      Dependency.RoundTrip(dependencies[i]);
    }
    ParseAllExact(json["dependencies"].items, ParseDependency, dependencies);
    var marked := MarkInstalled(programs);
    forall i | 0 <= i < |programs| ensures ParseProgram(reg)(json["programs"].items[i]) == Some(marked[i]) {
      InstalledProgram.RoundTrip(programs[i], reg);
    }
    ParseAllExact(json["programs"].items, ParseProgram(reg), marked);
  }

  class DataManager {
    var categories: seq<Category.Category>
    var dependencies: seq<Dependency.Dependency>
    var programs: seq<Program.Program>
    var installedCategories: seq<Category.Category>
    var installedDependencies: seq<Dependency.Dependency>
    var installedPrograms: seq<InstalledProgram.InstalledProgram>

    constructor ()
      ensures categories == [] && dependencies == [] && programs == []
      ensures installedCategories == [] && installedDependencies == [] && installedPrograms == []
    {
      categories, dependencies, programs := [], [], [];
      installedCategories, installedDependencies, installedPrograms := [], [], [];
    }

    /** `getCategories(installed)`: the chosen list as it stands, in insertion order */
    function GetCategories(installed: bool): seq<Category.Category>
      reads this
    {
      if installed then installedCategories else categories
    }

    /** `getDependencies(installed)`: the chosen list as it stands, in insertion order */
    function GetDependencies(installed: bool): seq<Dependency.Dependency>
      reads this
    {
      if installed then installedDependencies else dependencies
    }

    /** `addCategory(category, installed)`: appends to the chosen list; nothing else changes */
    method AddCategory(category: Category.Category, installed: bool)
      modifies this
      ensures GetCategories(installed) == old(GetCategories(installed)) + [category]
      ensures GetCategories(!installed) == old(GetCategories(!installed))
      ensures dependencies == old(dependencies) && installedDependencies == old(installedDependencies)
      ensures programs == old(programs) && installedPrograms == old(installedPrograms)
    {
      if installed {
        installedCategories := installedCategories + [category];
      } else {
        categories := categories + [category];
      }
    }

    /** `getCategory(id, installed)`: the first category of the chosen list with that id, or null */
    method GetCategory(id: int, installed: bool) returns (r: Option<Category.Category>)
      ensures r == IdLists.FindFirst(GetCategories(installed), Category.Id, id)
    {
      r := IdLists.Find(GetCategories(installed), Category.Id, id);
    }

    /** `removeCategory(id, installed)`: removes and returns the first match of the chosen list, or returns null and changes nothing */
    method RemoveCategory(id: int, installed: bool) returns (removed: Option<Category.Category>)
      modifies this
      ensures removed == IdLists.FindFirst(old(GetCategories(installed)), Category.Id, id)
      ensures GetCategories(installed) == IdLists.RemoveFirst(old(GetCategories(installed)), Category.Id, id)
      ensures GetCategories(!installed) == old(GetCategories(!installed))
      ensures dependencies == old(dependencies) && installedDependencies == old(installedDependencies)
      ensures programs == old(programs) && installedPrograms == old(installedPrograms)
    {
      var rest;
      rest, removed := IdLists.Remove(GetCategories(installed), Category.Id, id);
      if installed {
        installedCategories := rest;
      } else {
        categories := rest;
      }
    }

    /** `addDependency(dependency, installed)`: appends to the chosen list; nothing else changes */
    method AddDependency(dependency: Dependency.Dependency, installed: bool)
      modifies this
      ensures GetDependencies(installed) == old(GetDependencies(installed)) + [dependency]
      ensures GetDependencies(!installed) == old(GetDependencies(!installed))
      ensures categories == old(categories) && installedCategories == old(installedCategories)
      ensures programs == old(programs) && installedPrograms == old(installedPrograms)
    {
      if installed {
        installedDependencies := installedDependencies + [dependency];
      } else {
        dependencies := dependencies + [dependency];
      }
    }

    /** `getDependency(id, installed)`: the first dependency of the chosen list with that id, or null */
    method GetDependency(id: int, installed: bool) returns (r: Option<Dependency.Dependency>)
      ensures r == IdLists.FindFirst(GetDependencies(installed), Dependency.Id, id)
    {
      r := IdLists.Find(GetDependencies(installed), Dependency.Id, id);
    }

    /** `removeDependency(id, installed)`: removes and returns the first match of the chosen list, or returns null and changes nothing */
    method RemoveDependency(id: int, installed: bool) returns (removed: Option<Dependency.Dependency>)
      modifies this
      ensures removed == IdLists.FindFirst(old(GetDependencies(installed)), Dependency.Id, id)
      ensures GetDependencies(installed) == IdLists.RemoveFirst(old(GetDependencies(installed)), Dependency.Id, id)
      ensures GetDependencies(!installed) == old(GetDependencies(!installed))
      ensures categories == old(categories) && installedCategories == old(installedCategories)
      ensures programs == old(programs) && installedPrograms == old(installedPrograms)
    {
      var rest;
      rest, removed := IdLists.Remove(GetDependencies(installed), Dependency.Id, id);
      if installed {
        installedDependencies := rest;
      } else {
        dependencies := rest;
      }
    }

    /** `addProgram(program)`: appends one catalog program */
    method AddProgram(program: Program.Program)
      modifies this
      ensures programs == old(programs) + [program]
      ensures categories == old(categories) && installedCategories == old(installedCategories)
      ensures dependencies == old(dependencies) && installedDependencies == old(installedDependencies)
      ensures installedPrograms == old(installedPrograms)
    {
      programs := programs + [program];
    }

    /** `getProgram(id)`: the first catalog program with that id, or null */
    method GetProgram(id: int) returns (r: Option<Program.Program>)
      ensures r == IdLists.FindFirst(programs, Program.Id, id)
    {
      r := IdLists.Find(programs, Program.Id, id);
    }

    /** `deleteProgram(id)`: removes and returns the first catalog program with that id, or returns null and changes nothing */
    method DeleteProgram(id: int) returns (removed: Option<Program.Program>)
      modifies this
      ensures removed == IdLists.FindFirst(old(programs), Program.Id, id)
      ensures programs == IdLists.RemoveFirst(old(programs), Program.Id, id)
      ensures categories == old(categories) && installedCategories == old(installedCategories)
      ensures dependencies == old(dependencies) && installedDependencies == old(installedDependencies)
      ensures installedPrograms == old(installedPrograms)
    {
      programs, removed := IdLists.Remove(programs, Program.Id, id);
    }

    /** `addInstalledProgram(program)`: appends one installed program */
    method AddInstalledProgram(program: InstalledProgram.InstalledProgram)
      modifies this
      ensures installedPrograms == old(installedPrograms) + [program]
      ensures categories == old(categories) && installedCategories == old(installedCategories)
      ensures dependencies == old(dependencies) && installedDependencies == old(installedDependencies)
      ensures programs == old(programs)
    {
      installedPrograms := installedPrograms + [program];
    }

    /** `getInstalledProgram(id)`: the first installed program with that id, or null */
    method GetInstalledProgram(id: int) returns (r: Option<InstalledProgram.InstalledProgram>)
      ensures r == IdLists.FindFirst(installedPrograms, InstalledProgram.Id, id)
    {
      r := IdLists.Find(installedPrograms, InstalledProgram.Id, id);
    }

    /** `deleteInstalledProgram(id)`: removes and returns the first installed program with that id, or returns null and changes nothing */
    method DeleteInstalledProgram(id: int) returns (removed: Option<InstalledProgram.InstalledProgram>)
      modifies this
      ensures removed == IdLists.FindFirst(old(installedPrograms), InstalledProgram.Id, id)
      ensures installedPrograms == IdLists.RemoveFirst(old(installedPrograms), InstalledProgram.Id, id)
      ensures categories == old(categories) && installedCategories == old(installedCategories)
      ensures dependencies == old(dependencies) && installedDependencies == old(installedDependencies)
      ensures programs == old(programs)
    {
      installedPrograms, removed := IdLists.Remove(installedPrograms, InstalledProgram.Id, id);
    }

    /** `exportInstalledProgramsToJSON()`: the three loops over the installed lists; a program whose toJSON throws makes it throw (None) */
    method ExportInstalledPrograms() returns (json: Option<JsonObject>)
      ensures json == ExportOf(installedCategories, installedDependencies, installedPrograms)
    {
      var jsonCategories := EncodeList(installedCategories, CategoryJson);
      var jsonDependencies := EncodeList(installedDependencies, DependencyJson);
      var jsonPrograms := EncodeList(installedPrograms, InstalledProgram.ToJson);
      if jsonPrograms.None? {
        return None;
      }
      json := Some(map["categories" := JArray(jsonCategories.value), "dependencies" := JArray(jsonDependencies.value),
                       "programs" := JArray(jsonPrograms.value)]);
    }

    /**
     * `importInstalledProgramsFromJSON(json)` as written: appends to the installed lists what
     * the three loops read before any exception; every program is read from `json` itself
     */
    method ImportInstalledProgramsAsWritten(json: JsonObject, reg: Program.Registry) returns (ok: bool)
      modifies this
      ensures var r := ImportOf(json, ParseProgramAsWritten(json, reg));
        && installedCategories == old(installedCategories) + r.categories
        && installedDependencies == old(installedDependencies) + r.dependencies
        && installedPrograms == old(installedPrograms) + r.programs
        && ok == r.ok
      ensures categories == old(categories) && dependencies == old(dependencies) && programs == old(programs)
    {
      ok := ImportSections(json, ParseProgramAsWritten(json, reg));
    }

    /** The import as evidently intended: each program is read from its own element */
    method ImportInstalledPrograms(json: JsonObject, reg: Program.Registry) returns (ok: bool)
      modifies this
      ensures var r := ImportOf(json, ParseProgram(reg));
        && installedCategories == old(installedCategories) + r.categories
        && installedDependencies == old(installedDependencies) + r.dependencies
        && installedPrograms == old(installedPrograms) + r.programs
        && ok == r.ok
      ensures categories == old(categories) && dependencies == old(dependencies) && programs == old(programs)
    {
      ok := ImportSections(json, ParseProgram(reg));
    }

    /** The body both imports share: the three `if (json.has(key))` blocks, each stopping the import at an exception */
    method ImportSections(json: JsonObject, parseProgram: Json -> Option<InstalledProgram.InstalledProgram>) returns (ok: bool)
      modifies this
      ensures var r := ImportOf(json, parseProgram);
        && installedCategories == old(installedCategories) + r.categories
        && installedDependencies == old(installedDependencies) + r.dependencies
        && installedPrograms == old(installedPrograms) + r.programs
        && ok == r.ok
      ensures categories == old(categories) && dependencies == old(dependencies) && programs == old(programs)
    {
      var c := ReadSection(json, "categories", ParseCategory);
      installedCategories := installedCategories + c.values;
      if !c.complete {
        return false;
      }
      var d := ReadSection(json, "dependencies", ParseDependency);
      installedDependencies := installedDependencies + d.values;
      if !d.complete {
        return false;
      }
      var p := ReadSection(json, "programs", parseProgram);
      installedPrograms := installedPrograms + p.values;
      ok := p.complete;
    }
  }

  /** One export loop: puts each entry's toJSON into a fresh array, in order; a throwing toJSON ends it (None) */
  method EncodeList<T>(xs: seq<T>, toJson: T -> Option<JsonObject>) returns (r: Option<seq<Json>>)
    ensures r == EncodeAll(xs, toJson)
  {
    var items: seq<Json> := [];
    for i := 0 to |xs|
      invariant EncodeAll(xs[..i], toJson) == Some(items)
    {
      EncodeAllSnoc(xs[..i], xs[i], toJson);
      assert xs[..i + 1] == xs[..i] + [xs[i]];
      var o := toJson(xs[i]);
      if o.None? {
        EncodeAllPrefixFails(xs, i + 1, toJson);
        return None;
      }
      items := items + [JObject(o.value)];
    }
    assert xs[..|xs|] == xs;
    r := Some(items);
  }

  /** Encoding one more entry extends the encoding of the prefix */
  lemma {:induction false} EncodeAllSnoc<T>(xs: seq<T>, x: T, toJson: T -> Option<JsonObject>)
    requires EncodeAll(xs, toJson).Some?
    ensures EncodeAll(xs + [x], toJson) ==
      if toJson(x).Some? then Some(EncodeAll(xs, toJson).value + [JObject(toJson(x).value)]) else None
  {
    if xs == [] {
      assert xs + [x] == [x];
      assert [x][1..] == [];
      assert EncodeAll(xs, toJson).value == [];
      if toJson(x).Some? {
        var last := JObject(toJson(x).value);
        assert EncodeAll([x], toJson) == Some([last] + []);
        assert [last] + [] == [] + [last];
      }
    } else {
      EncodeAllSnoc(xs[1..], x, toJson);
      assert (xs + [x])[0] == xs[0];
      assert (xs + [x])[1..] == xs[1..] + [x];
      var head := JObject(toJson(xs[0]).value);
      var rest := EncodeAll(xs[1..], toJson).value;
      assert EncodeAll(xs, toJson) == Some([head] + rest);
      if toJson(x).Some? {
        var last := JObject(toJson(x).value);
        assert [head] + (rest + [last]) == ([head] + rest) + [last];
      }
    }
  }

  /** An entry whose toJSON throws makes the encoding of any list holding it throw */
  lemma EncodeAllPrefixFails<T>(xs: seq<T>, n: nat, toJson: T -> Option<JsonObject>)
    requires n <= |xs| && EncodeAll(xs[..n], toJson).None?
    ensures EncodeAll(xs, toJson).None?
  {
    var k :| 0 <= k < n && toJson(xs[..n][k]).None?;
    assert xs[k] == xs[..n][k];
  }

  /**
   * One `if (json.has(key)) { ... for ... }` block: reads the array and parses element
   * after element, stopping at the first exception
   */
  method ReadSection<T>(json: JsonObject, key: string, parse: Json -> Option<T>) returns (r: Parsed<T>)
    ensures r == Section(json, key, parse)
  {
    if key !in json {
      return Parsed([], true);
    }
    var items := GetArray(json, key);
    if items.None? {
      return Parsed([], false);
    }
    var values: seq<T> := [];
    for i := 0 to |items.value|
      invariant ParseAll(items.value[..i], parse) == Parsed(values, true)
    {
      var v := parse(items.value[i]);
      ParseAllSnoc(items.value[..i], items.value[i], parse);
      assert items.value[..i + 1] == items.value[..i] + [items.value[i]];
      if v.None? {
        ParseAllPrefix(items.value, i + 1, parse);
        return Parsed(values, false);
      }
      values := values + [v.value];
    }
    assert items.value[..|items.value|] == items.value;
    r := Parsed(values, true);
  }

  /** Parsing one more element after a complete prefix appends it, or stops there */
  lemma ParseAllSnoc<T>(items: seq<Json>, j: Json, parse: Json -> Option<T>)
    requires ParseAll(items, parse).complete
    ensures ParseAll(items + [j], parse) ==
      if parse(j).Some? then Parsed(ParseAll(items, parse).values + [parse(j).value], true)
      else Parsed(ParseAll(items, parse).values, false)
  {
    var ys := items + [j];
    assert forall i :: 0 <= i < |items| ==> ys[i] == items[i];
    ParseAllComplete(items, parse);
    ParseAllComplete(ys, parse);
    var r, ry := ParseAll(items, parse), ParseAll(ys, parse);
    if parse(j).Some? {
      ParseAllExact(ys, parse, r.values + [parse(j).value]);
    } else {
      ParseAllFirstFailure(ys, parse, |items|);
    }
  }

  /** The loop stops at the first element that does not parse, keeping what came before */
  lemma {:induction false} ParseAllFirstFailure<T>(items: seq<Json>, parse: Json -> Option<T>, k: nat)
    requires k < |items| && parse(items[k]).None?
    requires forall i :: 0 <= i < k ==> parse(items[i]).Some?
    ensures ParseAll(items, parse).complete == false
    ensures |ParseAll(items, parse).values| == k
  {
    if k > 0 {
      ParseAllFirstFailure(items[1..], parse, k - 1);
    }
  }

  /** When a prefix of the array stops early, the whole array stops at the same place */
  lemma {:induction false} ParseAllPrefix<T>(items: seq<Json>, n: nat, parse: Json -> Option<T>)
    requires n <= |items| && !ParseAll(items[..n], parse).complete
    ensures ParseAll(items, parse) == ParseAll(items[..n], parse)
  {
    if items != [] && n > 0 {
      assert items[..n][0] == items[0];
      assert items[..n][1..] == items[1..][..n - 1];
      if parse(items[0]).Some? {
        ParseAllPrefix(items[1..], n - 1, parse);
      }
    }
  }
}
