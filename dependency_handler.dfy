/**
 * DependencyHandler.java: the dependencies of the catalog and of the installed partition, kept in two
 * lists. The static lists are the fields of one handler object.
 */
module DependencyHandler {
  import opened Wrappers
  import Dependency
  import IdLists

  class DependencyHandler {
    var dependencies: seq<Dependency.Dependency>
    var installedDependencies: seq<Dependency.Dependency>

    constructor ()
      ensures dependencies == [] && installedDependencies == []
    {
      dependencies := [];
      installedDependencies := [];
    }

    /** `getDependencies(installed)`: the chosen list as it stands, in insertion order */
    function GetDependencies(installed: bool): seq<Dependency.Dependency>
      reads this
    {
      if installed then installedDependencies else dependencies
    }

    /** `addDependency(dependency, installed)`: appends to the chosen list; the other list is untouched */
    method AddDependency(dependency: Dependency.Dependency, installed: bool)
      modifies this
      ensures GetDependencies(installed) == old(GetDependencies(installed)) + [dependency]
      ensures GetDependencies(!installed) == old(GetDependencies(!installed))
    {
      if installed {
        installedDependencies := installedDependencies + [dependency];
      } else {
        dependencies := dependencies + [dependency];
      }
    }

    /** `getDependency(id, installed)`: the first entry of the chosen list with that id, or null */
    method GetDependency(id: int, installed: bool) returns (r: Option<Dependency.Dependency>)
      ensures r == IdLists.FindFirst(GetDependencies(installed), Dependency.Id, id)
    {
      r := IdLists.Find(GetDependencies(installed), Dependency.Id, id);
    }

    /**
     * `removeDependency(id, installed)`: removes the first entry of the chosen list with that id
     * and returns it, or returns null and changes nothing; the other list is untouched
     */
    method RemoveDependency(id: int, installed: bool) returns (removed: Option<Dependency.Dependency>)
      modifies this
      ensures removed == IdLists.FindFirst(old(GetDependencies(installed)), Dependency.Id, id)
      ensures GetDependencies(installed) == IdLists.RemoveFirst(old(GetDependencies(installed)), Dependency.Id, id)
      ensures GetDependencies(!installed) == old(GetDependencies(!installed))
    {
      var rest;
      rest, removed := IdLists.Remove(GetDependencies(installed), Dependency.Id, id);
      if installed {
        installedDependencies := rest;
      } else {
        dependencies := rest;
      }
    }
  }
}
