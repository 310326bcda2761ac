/**
 * The registry's view of a program (DataHandler.java) and the bookkeeping that
 * installProgram and uninstallProgram do on the installed categories and dependencies.
 * The property that matters: the installed categories and dependencies stay exactly those
 * the installed programs refer to, each listed once.
 */
module Registry {
  import Category
  import Dependency
  import opened IdLists

  /**
   * A program as the registry handles it: its id, its category, the key set of its
   * dependency map in iteration order, and whether it is detached from the distribution
   */
  datatype Program = Program(id: int, category: Category.Category,
                             dependencies: seq<Dependency.Dependency>, detached: bool)

  /** Programs compare by id, as their hashCode does */
  function Id(p: Program): int {
    p.id
  }

  /** The id of a program's category */
  function CategoryIdOf(p: Program): int {
    p.category.id
  }

  /** The ids of the dependencies the programs refer to */
  function DependencyIds(progs: seq<Program>): set<int> {
    set q, d | q in progs && d in q.dependencies :: d.id
  }

  lemma DependencyIdsAppend(a: seq<Program>, b: seq<Program>)
    ensures DependencyIds(a + b) == DependencyIds(a) + DependencyIds(b)
  {
    assert forall q :: q in a + b <==> q in a || q in b;
  }

  lemma DependencyIdsOne(p: Program)
    ensures DependencyIds([p]) == Keys(p.dependencies, Dependency.Id)
  {
  }

  /**
   * The installed partition is reference-counted: its categories are exactly those of the
   * installed programs and its dependencies exactly those they refer to, no id listed twice
   */
  predicate RefCounted(cats: seq<Category.Category>, deps: seq<Dependency.Dependency>, progs: seq<Program>) {
    && Keys(cats, Category.Id) == Keys(progs, CategoryIdOf) && DistinctKeys(cats, Category.Id)
    && Keys(deps, Dependency.Id) == DependencyIds(progs) && DistinctKeys(deps, Dependency.Id)
  }

  /** installProgram: the category is added unless one with its id is installed */
  function InstallCategories(cats: seq<Category.Category>, p: Program): seq<Category.Category> {
    AppendStep(cats, p.category, Category.Id)
  }

  /** installProgram: each dependency is added unless one with its id is installed */
  function InstallDependencies(deps: seq<Dependency.Dependency>, p: Program): seq<Dependency.Dependency> {
    AppendMissing(deps, p.dependencies, Dependency.Id)
  }

  /** The category id joins the installed categories; no id is listed twice */
  lemma InstallCategoriesEffect(cats: seq<Category.Category>, p: Program)
    requires DistinctKeys(cats, Category.Id)
    ensures Keys(InstallCategories(cats, p), Category.Id) == Keys(cats, Category.Id) + {p.category.id}
    ensures DistinctKeys(InstallCategories(cats, p), Category.Id)
  {
    if p.category.id !in Keys(cats, Category.Id) {
      KeysAppend(cats, [p.category], Category.Id);
      KeysOne(p.category, Category.Id);
      assert forall i :: 0 <= i < |cats| ==> cats[i] in cats;
    }
  }

  /** The program's dependency ids join the installed dependencies; no id is listed twice */
  lemma InstallDependenciesEffect(deps: seq<Dependency.Dependency>, p: Program)
    requires DistinctKeys(deps, Dependency.Id)
    ensures Keys(InstallDependencies(deps, p), Dependency.Id) ==
      Keys(deps, Dependency.Id) + Keys(p.dependencies, Dependency.Id)
    ensures DistinctKeys(InstallDependencies(deps, p), Dependency.Id)
  {
    AppendMissingSpec(deps, p.dependencies, Dependency.Id);
  }

  /** Installing a program keeps the installed partition reference-counted, and a new id keeps the program ids distinct */
  lemma InstallKeepsRefCount(cats: seq<Category.Category>, deps: seq<Dependency.Dependency>,
                             progs: seq<Program>, p: Program)
    requires RefCounted(cats, deps, progs)
    ensures RefCounted(InstallCategories(cats, p), InstallDependencies(deps, p), progs + [p])
    ensures DistinctKeys(progs, Id) && p.id !in Keys(progs, Id) ==> DistinctKeys(progs + [p], Id)
  {
    InstallCategoriesEffect(cats, p);
    InstallDependenciesEffect(deps, p);
    KeysAppend(progs, [p], CategoryIdOf);
    KeysOne(p, CategoryIdOf);
    DependencyIdsAppend(progs, [p]);
    DependencyIdsOne(p);
    if DistinctKeys(progs, Id) && p.id !in Keys(progs, Id) {
      assert forall i :: 0 <= i < |progs| ==> progs[i] in progs;
    }
  }

  /** uninstallProgram's `installedPrograms.remove(program)`: the first program with its id goes */
  function Remaining(progs: seq<Program>, p: Program): seq<Program> {
    RemoveFirst(progs, Id, p.id)
  }

  /** Some remaining program has a category with the id of p's */
  predicate CategoryShared(rest: seq<Program>, p: Program) {
    p.category.id in Keys(rest, CategoryIdOf)
  }

  /**
   * The program's own dependency map after uninstallProgram's scan: every dependency a
   * remaining program refers to has been deleted from it
   */
  function Pruned(p: Program, rest: seq<Program>): (r: seq<Dependency.Dependency>)
    ensures forall d :: d in r <==> d in p.dependencies && d.id !in DependencyIds(rest)
  {
    Without(p.dependencies, Dependency.Id, DependencyIds(rest))
  }

  /** The category is removed from the installed list unless a remaining program shares it */
  function UninstallCategories(cats: seq<Category.Category>, p: Program, rest: seq<Program>): seq<Category.Category> {
    if CategoryShared(rest, p) then cats else RemoveFirst(cats, Category.Id, p.category.id)
  }

  /** Each dependency left in the pruned map is removed from the installed list */
  function UninstallDependencies(deps: seq<Dependency.Dependency>, p: Program, rest: seq<Program>): seq<Dependency.Dependency> {
    RemoveEach(deps, Dependency.Id, KeySeq(Pruned(p, rest), Dependency.Id))
  }

  /** The category id leaves the installed categories exactly when no remaining program shares it; no other id does */
  lemma UninstallCategoriesEffect(cats: seq<Category.Category>, p: Program, rest: seq<Program>)
    requires DistinctKeys(cats, Category.Id)
    ensures Keys(UninstallCategories(cats, p, rest), Category.Id) ==
      if CategoryShared(rest, p) then Keys(cats, Category.Id) else Keys(cats, Category.Id) - {p.category.id}
    ensures DistinctKeys(UninstallCategories(cats, p, rest), Category.Id)
  {
    if !CategoryShared(rest, p) {
      RemoveFirstIsWithout(cats, Category.Id, p.category.id);
      WithoutKeys(cats, Category.Id, {p.category.id});
      WithoutDistinct(cats, Category.Id, {p.category.id});
    }
  }

  /**
   * A dependency id leaves the installed dependencies exactly when it is one of the
   * program's and no remaining program refers to it
   */
  lemma UninstallDependenciesEffect(deps: seq<Dependency.Dependency>, p: Program, rest: seq<Program>)
    requires DistinctKeys(deps, Dependency.Id)
    ensures Keys(UninstallDependencies(deps, p, rest), Dependency.Id) ==
      Keys(deps, Dependency.Id) - (Keys(p.dependencies, Dependency.Id) - DependencyIds(rest))
    ensures DistinctKeys(UninstallDependencies(deps, p, rest), Dependency.Id)
  {
    var pruned := Pruned(p, rest);
    RemoveEachIsWithout(deps, Dependency.Id, KeySeq(pruned, Dependency.Id));
    KeySeqKeys(pruned, Dependency.Id);
    WithoutKeys(p.dependencies, Dependency.Id, DependencyIds(rest));
    WithoutKeys(deps, Dependency.Id, Keys(pruned, Dependency.Id));
    WithoutDistinct(deps, Dependency.Id, Keys(pruned, Dependency.Id));
  }

  /** Uninstalling an installed program keeps the installed partition reference-counted */
  lemma UninstallKeepsRefCount(cats: seq<Category.Category>, deps: seq<Dependency.Dependency>,
                               progs: seq<Program>, p: Program)
    requires RefCounted(cats, deps, progs) && DistinctKeys(progs, Id) && p in progs
    ensures RefCounted(UninstallCategories(cats, p, Remaining(progs, p)),
                       UninstallDependencies(deps, p, Remaining(progs, p)), Remaining(progs, p))
    ensures DistinctKeys(Remaining(progs, p), Id)
  {
    var rest := Remaining(progs, p);
    RemoveFirstElements(progs, Id, p);
    assert Keys(progs, CategoryIdOf) == Keys(rest, CategoryIdOf) + {p.category.id};
    assert DependencyIds(progs) == DependencyIds(rest) + Keys(p.dependencies, Dependency.Id);
    UninstallCategoriesEffect(cats, p, rest);
    UninstallDependenciesEffect(deps, p, rest);
    RemoveFirstIsWithout(progs, Id, p.id);
    WithoutDistinct(progs, Id, {p.id});
  }

  /** An entry appended under a new id is the one uninstallProgram removes again */
  lemma RemainingAfterInstall(progs: seq<Program>, p: Program)
    requires p.id !in Keys(progs, Id)
    ensures Remaining(progs + [p], p) == progs
  {
    RemoveFirstAppendNew(progs, p, Id);
  }

  /** With reference counts in place, uninstalling a just-installed program restores the installed categories */
  lemma CategoriesAfterInstall(cats: seq<Category.Category>, progs: seq<Program>, p: Program)
    requires Keys(cats, Category.Id) == Keys(progs, CategoryIdOf)
    ensures UninstallCategories(InstallCategories(cats, p), p, progs) == cats
  {
    if p.category.id !in Keys(cats, Category.Id) {
      RemoveFirstAppendNew(cats, p.category, Category.Id);
    }
  }

  /** With reference counts in place, uninstalling a just-installed program restores the installed dependencies */
  lemma DependenciesAfterInstall(deps: seq<Dependency.Dependency>, progs: seq<Program>, p: Program)
    requires Keys(deps, Dependency.Id) == DependencyIds(progs) && DistinctKeys(deps, Dependency.Id)
    ensures UninstallDependencies(InstallDependencies(deps, p), p, progs) == deps
  {
    var added := InstallDependencies(deps, p);
    var pruned := Pruned(p, progs);
    AppendMissingSpec(deps, p.dependencies, Dependency.Id);
    RemoveEachIsWithout(added, Dependency.Id, KeySeq(pruned, Dependency.Id));
    KeySeqKeys(pruned, Dependency.Id);
    WithoutKeys(p.dependencies, Dependency.Id, DependencyIds(progs));
    AppendMissingWithout(deps, p.dependencies, Dependency.Id);
  }

  /** Uninstalling a program just installed under a new id restores the installed partition */
  lemma InstallThenUninstall(cats: seq<Category.Category>, deps: seq<Dependency.Dependency>,
                             progs: seq<Program>, p: Program)
    requires RefCounted(cats, deps, progs) && p.id !in Keys(progs, Id)
    ensures Remaining(progs + [p], p) == progs
    ensures UninstallCategories(InstallCategories(cats, p), p, progs) == cats
    ensures UninstallDependencies(InstallDependencies(deps, p), p, progs) == deps
  {
    RemainingAfterInstall(progs, p);
    CategoriesAfterInstall(cats, progs, p);
    DependenciesAfterInstall(deps, progs, p);
  }
}
