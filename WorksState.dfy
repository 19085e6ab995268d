/** The state record of the works screen and the actions the screen sends. */
module WorksState {
  import opened ProjectModel

  /** `WorksState`, with its Kotlin defaults. */
  datatype WorksState = WorksState(
    isLoading: bool := true,
    projects: seq<ProjectData> := [],
    searchQuery: string := "",
    isLoadingMore: bool := false,
    hasMorePages: bool := true,
    currentPage: int := 0
  )

  /** `WorksAction`: reaching the end of the list, or a new text in the search bar. */
  datatype WorksAction = LoadMoreProjects | OnSearchQueryChange(query: string)

  /** The screen's initial state. */
  function Initial(): (s: WorksState)
    ensures s.isLoading && !s.isLoadingMore
    ensures s.projects == [] && s.searchQuery == ""
    ensures s.hasMorePages && s.currentPage == 0
  {
    WorksState()
  }
}
