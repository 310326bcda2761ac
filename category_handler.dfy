/**
 * CategoryHandler.java: the categories of the catalog and of the installed partition, kept in two
 * lists. The static lists are the fields of one handler object.
 */
module CategoryHandler {
  import opened Wrappers
  import Category
  import IdLists

  class CategoryHandler {
    var categories: seq<Category.Category>
    var installedCategories: seq<Category.Category>

    constructor ()
      ensures categories == [] && installedCategories == []
    {
      categories := [];
      installedCategories := [];
    }

    /** `getCategories(installed)`: the chosen list as it stands, in insertion order */
    function GetCategories(installed: bool): seq<Category.Category>
      reads this
    {
      if installed then installedCategories else categories
    }

    /** `addCategory(category, installed)`: appends to the chosen list; the other list is untouched */
    method AddCategory(category: Category.Category, installed: bool)
      modifies this
      ensures GetCategories(installed) == old(GetCategories(installed)) + [category]
      ensures GetCategories(!installed) == old(GetCategories(!installed))
    {
      if installed {
        installedCategories := installedCategories + [category];
      } else {
        categories := categories + [category];
      }
    }

    /** `getCategory(id, installed)`: the first entry of the chosen list with that id, or null */
    method GetCategory(id: int, installed: bool) returns (r: Option<Category.Category>)
      ensures r == IdLists.FindFirst(GetCategories(installed), Category.Id, id)
    {
      r := IdLists.Find(GetCategories(installed), Category.Id, id);
    }

    /**
     * `removeCategory(id, installed)`: removes the first entry of the chosen list with that id
     * and returns it, or returns null and changes nothing; the other list is untouched
     */
    method RemoveCategory(id: int, installed: bool) returns (removed: Option<Category.Category>)
      modifies this
      ensures removed == IdLists.FindFirst(old(GetCategories(installed)), Category.Id, id)
      ensures GetCategories(installed) == IdLists.RemoveFirst(old(GetCategories(installed)), Category.Id, id)
      ensures GetCategories(!installed) == old(GetCategories(!installed))
    {
      var rest;
      rest, removed := IdLists.Remove(GetCategories(installed), Category.Id, id);
      if installed {
        installedCategories := rest;
      } else {
        categories := rest;
      }
    }
  }
}
