/** QueryTypes.java: the queries the client sends to the backend, by their wire names. */
module QueryTypes {

  datatype QueryType =
    | GetDependency
    | GetDependencies
    | GetCategory
    | GetCategories
    | GetProgram
    | GetPrograms
    | GetProgramFiles
    | CheckProgramVersion
    | GetProgramChangelog
    | GetClientFiles
    | CheckClientVersion
    | GetClientChangelog

  /** `getQueryName()` */
  function QueryName(q: QueryType): string {
    match q
    case GetDependency => "get_dependency"
    case GetDependencies => "get_dependencies"
    case GetCategory => "get_category"
    case GetCategories => "get_categories"
    case GetProgram => "get_program"
    case GetPrograms => "get_programs"
    case GetProgramFiles => "get_program_files"
    case CheckProgramVersion => "check_program_version"
    case GetProgramChangelog => "get_program_changelog"
    case GetClientFiles => "get_client_files"
    case CheckClientVersion => "check_client_version"
    case GetClientChangelog => "get_client_changelog"
  }

  /**
   * `isInformationListQuery()`: the flag the enum table passes as second
   * constructor argument; the one-argument constructor passes false.
   * Every list query is a `get_` query, and none of the version checks or
   * changelog queries is one.
   */
  predicate IsInformationListQuery(q: QueryType): (r: bool)
    ensures r <==> q in {GetDependencies, GetCategories, GetPrograms, GetProgramFiles, GetClientFiles}
    ensures r ==> QueryName(q)[..4] == "get_"
    ensures q in {CheckProgramVersion, GetProgramChangelog, CheckClientVersion, GetClientChangelog} ==> !r
  {
    match q
    case GetDependencies | GetCategories | GetPrograms | GetProgramFiles | GetClientFiles => true
    case _ => false
  }

  /** No two queries share a wire name */
  lemma QueryNamesDistinct(p: QueryType, q: QueryType)
    ensures QueryName(p) == QueryName(q) ==> p == q
  {
  }
}
