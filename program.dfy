/**
 * Program.java: a program of the distribution, as the backend lists it or as it is recorded
 * once installed. The category, the release time and each dependency may be null (None):
 * fromJSON resolves ids through the registry and keeps a null for an unknown id.
 */
module Program {
  import opened Wrappers
  import opened Json
  import opened Timestamps
  import Category
  import Dependency
  import IdLists

  datatype Program = Program(
    id: int,
    category: Option<Category.Category>,
    slug: string,
    name: string,
    description: string,
    sourceUrl: string,
    launchFile: string,
    helpFile: string,
    version: string,
    releaseTime: Option<Timestamp>,
    dependencies: seq<Option<Dependency.Dependency>>,
    installed: bool)

  /** `getId()`, the key the registry lists use */
  function Id(p: Program): int {
    p.id
  }

  /** The registry lists `DataHandler.getCategory/getDependency(id, installed)` search: the catalog and the installed partition */
  datatype Registry = Registry(
    categories: seq<Category.Category>,
    dependencies: seq<Dependency.Dependency>,
    installedCategories: seq<Category.Category>,
    installedDependencies: seq<Dependency.Dependency>)

  /** `DataHandler.getCategory(id, installed)`: the first category of the chosen partition with that id, or null */
  function LookupCategory(reg: Registry, id: int, installed: bool): Option<Category.Category> {
    IdLists.FindFirst(if installed then reg.installedCategories else reg.categories, Category.Id, id)
  }

  /** `DataHandler.getDependency(id, installed)`: the first dependency of the chosen partition with that id, or null */
  function LookupDependency(reg: Registry, id: int, installed: bool): Option<Dependency.Dependency> {
    IdLists.FindFirst(if installed then reg.installedDependencies else reg.dependencies, Dependency.Id, id)
  }

  /** The loop of toJSON that puts each dependency's id; a null dependency throws (None) */
  function DependencyIds(deps: seq<Option<Dependency.Dependency>>): (r: Option<seq<Json>>)
    ensures r.Some? <==> forall i :: 0 <= i < |deps| ==> deps[i].Some?
    ensures r.Some? ==> |r.value| == |deps| && forall i :: 0 <= i < |deps| ==> r.value[i] == JInt(deps[i].value.id)
  {
    if deps == [] then Some([])
    else if deps[0].None? then None
    else
      match DependencyIds(deps[1..])
      case None => None
      case Some(rest) => Some([JInt(deps[0].value.id)] + rest)
  }

  /** `toJSON()`: the scalar fields, the category's id and the dependency ids in order; a null category, release time or dependency throws (None) */
  function ToJson(p: Program): (r: Option<JsonObject>)
    ensures r.Some? <==> p.category.Some? && p.releaseTime.Some? && forall i :: 0 <= i < |p.dependencies| ==> p.dependencies[i].Some?
    ensures r.Some? ==> r.value.Keys == {"id", "category_id", "slug", "name", "description", "source_url", "launch_file",
                                         "help_file", "version", "release_time", "dependencies"}
    ensures r.Some? ==> r.value["category_id"] == JInt(p.category.value.id)
    ensures r.Some? ==> (r.value["dependencies"].JArray? && |r.value["dependencies"].items| == |p.dependencies| &&
      forall i :: 0 <= i < |p.dependencies| ==> r.value["dependencies"].items[i] == JInt(p.dependencies[i].value.id))
  {
    if p.category.None? || p.releaseTime.None? then None
    else
      var ids :- DependencyIds(p.dependencies);
      Some(Fields(p, ids))
  }

  /** The object toJSON fills once the category, the release time and the dependency ids are known */
  function Fields(p: Program, ids: seq<Json>): JsonObject
    requires p.category.Some? && p.releaseTime.Some?
  {
    map[
      "id" := JInt(p.id),
      "category_id" := JInt(p.category.value.id),
      "slug" := JString(p.slug),
      "name" := JString(p.name),
      "description" := JString(p.description),
      "source_url" := JString(p.sourceUrl),
      "launch_file" := JString(p.launchFile),
      "help_file" := JString(p.helpFile),
      "version" := JString(p.version),
      "release_time" := JString(ToString(p.releaseTime.value)),
      "dependencies" := JArray(ids)]
  }

  /** The category as fromJSON reads it: null when absent, the registered category with the stored id (or null) when present */
  function CategoryOr(o: JsonObject, installed: bool, reg: Registry): Option<Option<Category.Category>> {
    if "category_id" in o then
      match GetInt(o, "category_id")
      case None => None
      case Some(categoryId) => Some(LookupCategory(reg, categoryId, installed))
    else Some(None)
  }

  /** The release time as fromJSON reads it: null when absent */
  function ReleaseTimeOr(o: JsonObject): Option<Option<Timestamp>> {
    if "release_time" in o then
      match GetString(o, "release_time")
      case None => None
      case Some(s) => Some(Some(ValueOf(s)))
    else Some(None)
  }

  /** The loop of fromJSON over the dependency ids: each is looked up in the chosen partition; an element that is not an integer throws (None) */
  function ResolveDependencies(items: seq<Json>, installed: bool, reg: Registry): (r: Option<seq<Option<Dependency.Dependency>>>)
    ensures r.Some? <==> forall i :: 0 <= i < |items| ==> items[i].JInt?
    ensures r.Some? ==> (|r.value| == |items| &&
      forall i :: 0 <= i < |items| ==> r.value[i] == LookupDependency(reg, items[i].i, installed))
  {
    if items == [] then Some([])
    else
      match AsInt(items[0])
      case None => None
      case Some(dependencyId) =>
        match ResolveDependencies(items[1..], installed, reg)
        case None => None
        case Some(rest) => Some([LookupDependency(reg, dependencyId, installed)] + rest)
  }

  /** The dependencies as fromJSON reads them: empty when absent */
  function DependenciesOr(o: JsonObject, installed: bool, reg: Registry): Option<seq<Option<Dependency.Dependency>>> {
    if "dependencies" in o then
      match GetArray(o, "dependencies")
      case None => None
      case Some(items) => ResolveDependencies(items, installed, reg)
    else Some([])
  }

  /** `fromJSON(json, installed)`: each present key is read, each missing one keeps its default; a value of the wrong type throws (None) */
  function FromJson(o: JsonObject, installed: bool, reg: Registry): Option<Program> {
    var id :- IntOr(o, "id", 0);
    var category :- CategoryOr(o, installed, reg);
    var slug :- StringOr(o, "slug", "");
    var name :- StringOr(o, "name", "");
    var description :- StringOr(o, "description", "");
    var sourceUrl :- StringOr(o, "source_url", "");
    var launchFile :- StringOr(o, "launch_file", "");
    var helpFile :- StringOr(o, "help_file", "");
    var version :- StringOr(o, "version", "");
    var releaseTime :- ReleaseTimeOr(o);
    var dependencies :- DependenciesOr(o, installed, reg);
    Some(Program(id, category, slug, name, description, sourceUrl, launchFile, helpFile, version, releaseTime, dependencies, installed))
  }

  /** A dependencies value fromJSON cannot read makes fromJSON throw, whatever the other keys hold */
  lemma FromJsonNeedsDependencies(o: JsonObject, installed: bool, reg: Registry)
    requires DependenciesOr(o, installed, reg).None?
    ensures FromJson(o, installed, reg).None?
  {
  }

  /** An object without any of the keys gives id 0, empty strings, no category, no release time and no dependencies */
  lemma FromJsonDefaults(installed: bool, reg: Registry)
    ensures FromJson(map[], installed, reg) == Some(Program(0, None, "", "", "", "", "", "", "", None, [], installed))
  {
  }

  /**
   * fromJSON resolves the category id and every dependency id in the partition `installed`
   * chooses: a registered id gives the first entry with it, an unknown one gives null
   */
  lemma FromJsonResolves(o: JsonObject, installed: bool, reg: Registry)
    requires FromJson(o, installed, reg).Some?
    ensures var p := FromJson(o, installed, reg).value;
      && p.installed == installed
      && ("category_id" in o ==> p.category == LookupCategory(reg, o["category_id"].i, installed))
      && ("category_id" in o ==> (p.category.None? <==>
            o["category_id"].i !in IdLists.Keys(if installed then reg.installedCategories else reg.categories, Category.Id)))
      && ("dependencies" in o ==> (|p.dependencies| == |o["dependencies"].items| &&
            forall i :: 0 <= i < |p.dependencies| ==>
              p.dependencies[i] == LookupDependency(reg, o["dependencies"].items[i].i, installed)))
      && ("dependencies" !in o ==> p.dependencies == [])
  {
  }

  /**
   * Reading back what toJSON wrote restores every scalar field and sets `installed` as asked;
   * it restores the category and the dependencies when each is the first entry of its id in
   * the chosen partition
   */
  lemma {:induction false} RoundTrip(p: Program, installed: bool, reg: Registry)
    requires ToJson(p).Some?
    requires LookupCategory(reg, p.category.value.id, installed) == p.category
    requires forall i :: 0 <= i < |p.dependencies| ==> LookupDependency(reg, p.dependencies[i].value.id, installed) == p.dependencies[i]
    ensures FromJson(ToJson(p).value, installed, reg) == Some(p.(installed := installed))
  {
    var ids := DependencyIds(p.dependencies).value;
    var o := Fields(p, ids);
    assert ToJson(p).value == o;
    FieldsReadRefs(p, ids, installed, reg);
    FieldsReadNames(p, ids);
    FieldsReadFiles(p, ids);
    DependenciesRoundTrip(p, o, installed, reg);
    FromJsonReads(o, installed, reg, p);
  }

  /** The id, category and release time readers of fromJSON find in the toJSON object what was written */
  lemma FieldsReadRefs(p: Program, ids: seq<Json>, installed: bool, reg: Registry)
    requires p.category.Some? && p.releaseTime.Some?
    requires LookupCategory(reg, p.category.value.id, installed) == p.category
    ensures var o := Fields(p, ids);
      && IntOr(o, "id", 0) == Some(p.id)
      && CategoryOr(o, installed, reg) == Some(p.category)
      && ReleaseTimeOr(o) == Some(p.releaseTime)
  {
  }

  /** The slug, name, description and source readers of fromJSON find in the toJSON object what was written */
  lemma FieldsReadNames(p: Program, ids: seq<Json>)
    requires p.category.Some? && p.releaseTime.Some?
    ensures var o := Fields(p, ids);
      && StringOr(o, "slug", "") == Some(p.slug)
      && StringOr(o, "name", "") == Some(p.name)
      && StringOr(o, "description", "") == Some(p.description)
      && StringOr(o, "source_url", "") == Some(p.sourceUrl)
  {
  }

  /** The launch file, help file and version readers of fromJSON find in the toJSON object what was written */
  lemma FieldsReadFiles(p: Program, ids: seq<Json>)
    requires p.category.Some? && p.releaseTime.Some?
    ensures var o := Fields(p, ids);
      && StringOr(o, "launch_file", "") == Some(p.launchFile)
      && StringOr(o, "help_file", "") == Some(p.helpFile)
      && StringOr(o, "version", "") == Some(p.version)
  {
  }

  /** fromJSON assembles the program from what its readers return */
  lemma FromJsonReads(o: JsonObject, installed: bool, reg: Registry, p: Program)
    requires IntOr(o, "id", 0) == Some(p.id)
    requires CategoryOr(o, installed, reg) == Some(p.category)
    requires StringOr(o, "slug", "") == Some(p.slug)
    requires StringOr(o, "name", "") == Some(p.name)
    requires StringOr(o, "description", "") == Some(p.description)
    requires StringOr(o, "source_url", "") == Some(p.sourceUrl)
    requires StringOr(o, "launch_file", "") == Some(p.launchFile)
    requires StringOr(o, "help_file", "") == Some(p.helpFile)
    requires StringOr(o, "version", "") == Some(p.version)
    requires ReleaseTimeOr(o) == Some(p.releaseTime)
    requires DependenciesOr(o, installed, reg) == Some(p.dependencies)
    ensures FromJson(o, installed, reg) == Some(p.(installed := installed))
  {
  }

  /** The dependency array toJSON writes resolves back to the program's dependencies when each is registered first under its id */
  lemma DependenciesRoundTrip(p: Program, o: JsonObject, installed: bool, reg: Registry)
    requires ToJson(p) == Some(o)
    requires forall i :: 0 <= i < |p.dependencies| ==> LookupDependency(reg, p.dependencies[i].value.id, installed) == p.dependencies[i]
    ensures DependenciesOr(o, installed, reg) == Some(p.dependencies)
  {
    var deps := ResolveDependencies(o["dependencies"].items, installed, reg);
    assert deps.value == p.dependencies;
  }

  /** The keys fromJSON reads */
  const ReadKeys: set<string> := {"id", "category_id", "slug", "name", "description", "source_url", "launch_file",
                                  "help_file", "version", "release_time", "dependencies"}

  /** Two objects hold the same value, or none, under key k */
  predicate AgreeOn(o: JsonObject, o': JsonObject, k: string) {
    (k in o <==> k in o') && (k in o ==> o[k] == o'[k])
  }

  /** fromJSON gives the same result on objects on which its readers agree */
  lemma FromJsonLocal(o: JsonObject, o': JsonObject, installed: bool, reg: Registry)
    requires IntOr(o, "id", 0) == IntOr(o', "id", 0)
    requires CategoryOr(o, installed, reg) == CategoryOr(o', installed, reg)
    requires StringOr(o, "slug", "") == StringOr(o', "slug", "")
    requires StringOr(o, "name", "") == StringOr(o', "name", "")
    requires StringOr(o, "description", "") == StringOr(o', "description", "")
    requires StringOr(o, "source_url", "") == StringOr(o', "source_url", "")
    requires StringOr(o, "launch_file", "") == StringOr(o', "launch_file", "")
    requires StringOr(o, "help_file", "") == StringOr(o', "help_file", "")
    requires StringOr(o, "version", "") == StringOr(o', "version", "")
    requires ReleaseTimeOr(o) == ReleaseTimeOr(o')
    requires DependenciesOr(o, installed, reg) == DependenciesOr(o', installed, reg)
    ensures FromJson(o, installed, reg) == FromJson(o', installed, reg)
  {
  }

  /** Each reader of fromJSON depends only on its own key */
  lemma ReadersLocal(o: JsonObject, o': JsonObject, installed: bool, reg: Registry)
    requires AgreeOn(o, o', "category_id") && AgreeOn(o, o', "release_time") && AgreeOn(o, o', "dependencies")
    ensures CategoryOr(o, installed, reg) == CategoryOr(o', installed, reg)
    ensures ReleaseTimeOr(o) == ReleaseTimeOr(o')
    ensures DependenciesOr(o, installed, reg) == DependenciesOr(o', installed, reg)
  {
  }

  /** fromJSON does not look at any other key: adding one does not change what it reads */
  lemma FromJsonIgnoresOtherKeys(o: JsonObject, key: string, v: Json, installed: bool, reg: Registry)
    requires key !in ReadKeys
    ensures FromJson(o[key := v], installed, reg) == FromJson(o, installed, reg)
  {
    var o' := o[key := v];
    forall k | k in ReadKeys ensures AgreeOn(o, o', k) {
      assert k != key;
    }
    assert "id" in ReadKeys;
    assert "category_id" in ReadKeys;
    assert "slug" in ReadKeys;
    assert "name" in ReadKeys;
    assert "description" in ReadKeys;
    assert "source_url" in ReadKeys;
    assert "launch_file" in ReadKeys;
    assert "help_file" in ReadKeys;
    assert "version" in ReadKeys;
    assert "release_time" in ReadKeys;
    assert "dependencies" in ReadKeys;
    ReadersLocal(o, o', installed, reg);
    FromJsonLocal(o, o', installed, reg);
  }

  /** `hashCode()` */
  function HashCode(p: Program): int {
    p.id
  }

  /** The argument of `equals(Object)`: a program, a category, any other object, or null */
  datatype Object = ProgramObject(p: Program) | CategoryObject(c: Category.Category) | OtherObject | Null

  /**
   * `equals(other)` as written: it tests `instanceof Category` and then casts to Program, so it
   * is false for every argument that is not a Category and throws ClassCastException (None)
   * for one that is
   */
  function EqualsAsWritten(p: Program, other: Object): Option<bool> {
    if !other.CategoryObject? then Some(false) else None
  }

  /** As written, equals never holds: not even a program equals itself, against the contract of Object.equals */
  lemma EqualsAsWrittenNeverHolds(p: Program, other: Object)
    ensures EqualsAsWritten(p, other) != Some(true)
    ensures EqualsAsWritten(p, ProgramObject(p)) == Some(false)
    ensures EqualsAsWritten(p, CategoryObject(Category.Category(p.id, "", "", ""))).None?
  {
  }

  /** `equals(other)` as evidently intended: true exactly for a program with the same id, as hashCode suggests */
  function Equals(p: Program, other: Object): (r: bool)
    ensures r ==> other.ProgramObject? && HashCode(other.p) == HashCode(p)
  {
    other.ProgramObject? && other.p.id == p.id
  }

  /** The intended equals is reflexive, symmetric and transitive, false for null, and agrees with hashCode */
  lemma EqualsIsEquivalence(a: Program, b: Program, c: Program)
    ensures Equals(a, ProgramObject(a))
    ensures Equals(a, ProgramObject(b)) == Equals(b, ProgramObject(a))
    ensures Equals(a, ProgramObject(b)) && Equals(b, ProgramObject(c)) ==> Equals(a, ProgramObject(c))
    ensures !Equals(a, Null) && Equals(a, ProgramObject(b)) == (HashCode(a) == HashCode(b))
  {
  }
}
