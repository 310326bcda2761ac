/** Dependency.java: an immutable dependency (an optional runtime a program may need), identified by its id. */
module Dependency {
  import opened Wrappers
  import opened Json

  datatype Dependency = Dependency(id: int, name: string, description: string, url: string)

  /** `getId()`, the key the registry lists use */
  function Id(d: Dependency): int {
    d.id
  }

  /** `toJSON()`: one key per field */
  function ToJson(d: Dependency): (o: JsonObject)
    ensures o.Keys == {"id", "name", "description", "url"}
  {
    map["id" := JInt(d.id), "name" := JString(d.name), "description" := JString(d.description),
        "url" := JString(d.url)]
  }

  /** `fromJSON(json)`: each present key is read, each missing one keeps its default; a value of the wrong type throws (None) */
  function FromJson(o: JsonObject): Option<Dependency> {
    var id :- IntOr(o, "id", 0);
    var name :- StringOr(o, "name", "");
    var description :- StringOr(o, "description", "");
    var url :- StringOr(o, "url", "");
    Some(Dependency(id, name, description, url))
  }

  /** Reading back what toJSON wrote gives the same dependency */
  lemma RoundTrip(d: Dependency)
    ensures FromJson(ToJson(d)) == Some(d)
  {
  }

  /** An object without any of the keys gives id 0 and empty strings */
  lemma FromJsonDefaults(o: JsonObject)
    requires "id" !in o && "name" !in o && "description" !in o && "url" !in o
    ensures FromJson(o) == Some(Dependency(0, "", "", ""))
  {
  }

  /** fromJSON throws exactly when a present key holds a value of the wrong type; otherwise it copies every present value */
  lemma FromJsonResult(o: JsonObject)
    ensures FromJson(o).Some? <==>
      IntOrAbsent(o, "id") && StringOrAbsent(o, "name") && StringOrAbsent(o, "description") && StringOrAbsent(o, "url")
    ensures FromJson(o).Some? ==>
      && ("id" in o ==> o["id"] == JInt(FromJson(o).value.id))
      && ("name" in o ==> o["name"] == JString(FromJson(o).value.name))
      && ("description" in o ==> o["description"] == JString(FromJson(o).value.description))
      && ("url" in o ==> o["url"] == JString(FromJson(o).value.url))
  {
  }

  /** `hashCode()` */
  function HashCode(d: Dependency): int {
    d.id
  }

  /** `equals(other)`: other is None when it is null or not a Dependency */
  function Equals(d: Dependency, other: Option<Dependency>): (r: bool)
    ensures r <==> other.Some? && other.value.id == d.id
  {
    match other
    case None => false
    case Some(e) => d.id == e.id
  }

  /** equals is reflexive, symmetric and transitive, and false for null */
  lemma EqualsIsEquivalence(a: Dependency, b: Dependency, c: Dependency)
    ensures Equals(a, Some(a))
    ensures Equals(a, Some(b)) == Equals(b, Some(a))
    ensures Equals(a, Some(b)) && Equals(b, Some(c)) ==> Equals(a, Some(c))
    ensures !Equals(a, None)
  {
  }

  /** Equal dependencies have equal hash codes */
  lemma EqualsAgreesWithHashCode(a: Dependency, b: Dependency)
    requires Equals(a, Some(b))
    ensures HashCode(a) == HashCode(b)
  {
  }
}
