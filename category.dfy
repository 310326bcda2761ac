/** Category.java: an immutable category of programs, identified by its id. */
module Category {
  import opened Wrappers
  import opened Json

  datatype Category = Category(id: int, slug: string, name: string, description: string)

  /** `getId()`, the key the registry lists use */
  function Id(c: Category): int {
    c.id
  }

  /** `toJSON()`: one key per field */
  function ToJson(c: Category): (o: JsonObject)
    ensures o.Keys == {"id", "slug", "name", "description"}
  {
    map["id" := JInt(c.id), "slug" := JString(c.slug), "name" := JString(c.name),
        "description" := JString(c.description)]
  }

  /** `fromJSON(json)`: each present key is read, each missing one keeps its default; a value of the wrong type throws (None) */
  function FromJson(o: JsonObject): Option<Category> {
    var id :- IntOr(o, "id", 0);
    var slug :- StringOr(o, "slug", "");
    var name :- StringOr(o, "name", "");
    var description :- StringOr(o, "description", "");
    Some(Category(id, slug, name, description))
  }

  /** Reading back what toJSON wrote gives the same category */
  lemma RoundTrip(c: Category)
    ensures FromJson(ToJson(c)) == Some(c)
  {
  }

  /** An object without any of the keys gives id 0 and empty strings */
  lemma FromJsonDefaults(o: JsonObject)
    requires "id" !in o && "slug" !in o && "name" !in o && "description" !in o
    ensures FromJson(o) == Some(Category(0, "", "", ""))
  {
  }

  /** fromJSON throws exactly when a present key holds a value of the wrong type; otherwise it copies every present value */
  lemma FromJsonResult(o: JsonObject)
    ensures FromJson(o).Some? <==>
      IntOrAbsent(o, "id") && StringOrAbsent(o, "slug") && StringOrAbsent(o, "name") && StringOrAbsent(o, "description")
    ensures FromJson(o).Some? ==>
      && ("id" in o ==> o["id"] == JInt(FromJson(o).value.id))
      && ("slug" in o ==> o["slug"] == JString(FromJson(o).value.slug))
      && ("name" in o ==> o["name"] == JString(FromJson(o).value.name))
      && ("description" in o ==> o["description"] == JString(FromJson(o).value.description))
  {
  }

  /** `hashCode()` */
  function HashCode(c: Category): int {
    c.id
  }

  /** `equals(other)`: other is None when it is null or not a Category */
  function Equals(c: Category, other: Option<Category>): (r: bool)
    ensures r <==> other.Some? && other.value.id == c.id
  {
    match other
    case None => false
    case Some(d) => c.id == d.id
  }

  /** equals is reflexive, symmetric and transitive, and false for null */
  lemma EqualsIsEquivalence(a: Category, b: Category, c: Category)
    ensures Equals(a, Some(a))
    ensures Equals(a, Some(b)) == Equals(b, Some(a))
    ensures Equals(a, Some(b)) && Equals(b, Some(c)) ==> Equals(a, Some(c))
    ensures !Equals(a, None)
  {
  }

  /** Equal categories have equal hash codes */
  lemma EqualsAgreesWithHashCode(a: Category, b: Category)
    requires Equals(a, Some(b))
    ensures HashCode(a) == HashCode(b)
  {
  }
}
