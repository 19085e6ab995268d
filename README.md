# Aella works pane, project store and theme settings, in Dafny

Aella is a desktop application for managing projects, workers and clients. This model covers the
part of it that holds state and rules, not its layout:

- **The works pane controller** (`WorksViewModel`, `WorksState`). It loads projects ten at a time.
  `LoadMoreProjects` appends the next page. `OnSearchQueryChange` stores the query and, after a
  debounce that a newer change cancels, starts a new search from page 1. One guard refuses every
  load while a load-more is in flight, and refuses a load-more once a short page is seen. A fetch
  that fails counts as an empty page.
- **The project store** (`ProjectDao`, `ProjectRepositoryImpl`). The `projects` table is keyed by
  `id`. Upsert and delete work on the key. The listing and the search are ordered by `creationDate`
  descending, then cut with `LIMIT`/`OFFSET`. The search matches `%query%` with SQL `LIKE` against
  the name or the description. The repository works out the offset `(page - 1) * pageSize`. It also
  converts rows to `ProjectData`, with the team stored as a JSON list.
- **The records and converters** (`ProjectData` and its placeholder generator, `ProjectStatus`,
  the Room `Converters`).
- **The project list screen's rules** (`ProjectList`): the trigger that asks for the next page,
  the team shown as `", "`-joined text and read back by splitting on `,`, the edit dialog's
  callbacks, and the card selection.
- **Theme settings** (`ThemeColorsConfig`, `MainViewModel`, `HomeViewModel`, `PreferenceSettings`).
  The dark flag and the theme colour are loaded from preferences, changed, and saved from the
  settings dialog of the home screen.

## Where the model is exact and where it is abstract

- The classes keep the source's state as fields: `ProjectDao.rows`, `WorksViewModel.state`,
  `MainViewModel.isDarkTheme`/`themeColor`, `PreferenceSettings.prefs` and `HomeViewModel.state`.
  Their methods update those fields, and each method's contract states the new state.
- Each state change is also a function (`Begun`, `Completed`, `Upserted`, `Deleted`, `NextState`,
  `LoadedTheme`). The lemmas about sessions, round trips and tables are stated on those functions.
- The table is the sequence of rows in insertion (rowid) order. Its unique-id invariant is
  `ProjectDao.Valid`, and `ProjectDao.Table` gives the keyed view.
- `ORDER BY creationDate DESC` is a stable sort by code-point order (`Text.LexLess`), which is what SQLite's `BINARY` collation gives on UTF-8 text, so rows with
  equal dates keep rowid order. SQLite does not promise this tie order. The dates are display
  strings such as `15/07/2025`, so this order compares the day first. "Newest first" is therefore
  not chronological across months or years.
- `LIKE` is defined concretely: ASCII case folding, `%` and `_` as wildcards, no escape character.
  The query is inserted into the pattern unescaped. This matters because a `%` or `_` typed into
  the search box acts as a wildcard, so `Dao.LikeSubstring` holds only for queries without them.
- The JSON list codec (kotlinx.serialization) is a pair of functions, `Converters.ListCodec`. Its
  only assumed law is that decoding an encoded list gives the list back (`ListCodec.RoundTrips`).
  A decode failure is `Err(MalformedJson)`. The Kotlin code throws in that case. The works
  controller catches the throw and uses an empty page.
- `ProjectStatus.valueOf` of an unknown name is `Err(NoSuchConstant)`, where Kotlin throws
  `IllegalArgumentException`.
- Coroutines appear as the steps they split into. `WorksViewModel.LoadProjects` is the guard and
  the flag update. They run as one step, on the assumption that `viewModelScope` dispatches
  immediately. `WorksViewModel.Complete(k)` is the end of the `k`-th fetch in flight, in any order,
  and it reads the table as it is then. `WorksViewModel.SearchDelayElapsed` is the end of the
  debounce `delay`. Cancelling the pending search job is a flag, `searchPending`, because at most
  one debounce can be pending.
- `MainViewModel.changeTheme`/`changeThemeColor` launch a coroutine each. They are modelled as
  completing before the next action.

## Overlapping loads

- A query change does not always start a new search. The search launched after the debounce goes
  through the same guard as a load-more: `isLoadingMore || …` (WorksViewModel.kt:68). So a search
  whose delay ends while a load-more is in flight is dropped. The list then keeps showing results
  for the old query, with the new query in the search box. The model follows the code
  (`WorksViewModel.WorksViewModel.SearchDelayElapsed`, `WorksViewModel.LoadMoreBlocksEverything`).
- The reverse overlap is allowed. A load-more may start while a new search is loading, because the
  guard checks only `isLoadingMore`. The load-more reads `currentPage` after the search set it to 1,
  so it asks for page 2, and it sets `currentPage` to 2. What happens next depends on which fetch
  returns first:
  - If the load-more's fetch returns first, the search's page 1 then replaces the list while
    `currentPage` stays 2. The next load-more asks for page 3, so page 2 is never shown
    (`WorksViewModel.OverlapSkipsAPage`).
  - If the search's fetch returns first, the load-more appends page 2 after page 1 and nothing is
    skipped.
- The model lets in-flight fetches complete in any order (`WorksViewModel.WorksViewModel.Complete`).

## Model

All paths below are under `composeApp/src/desktopMain/kotlin/org/christophertwo/aella/`, written out in full.

| member | source | states |
|---|---|---|
| WorksState.Initial | composeApp/src/desktopMain/kotlin/org/christophertwo/aella/ui/screen/works/WorksState.kt:15-22 | the initial state is loading, with no projects, an empty query, more pages expected and current page 0 |
| WorksViewModel.BeginSetsFlagsAndPage | composeApp/src/desktopMain/kotlin/org/christophertwo/aella/ui/screen/works/WorksViewModel.kt:74-83 | a new search shows `isLoading` and page 1; a load-more shows `isLoadingMore` and the next page; projects, query and `hasMorePages` are untouched |
| WorksViewModel.Begun | composeApp/src/desktopMain/kotlin/org/christophertwo/aella/ui/screen/works/WorksViewModel.kt:77-83 | no contract of its own: the state after a load begins; its properties are stated by `BeginSetsFlagsAndPage` and `LoadMoreBlocksEverything` |
| WorksViewModel.CompleteMerges | composeApp/src/desktopMain/kotlin/org/christophertwo/aella/ui/screen/works/WorksViewModel.kt:104-108 | a new search replaces the list with the result; a load-more keeps the old list as a prefix and appends the result after it (length L + k) |
| WorksViewModel.CompleteDetectsEnd | composeApp/src/desktopMain/kotlin/org/christophertwo/aella/ui/screen/works/WorksViewModel.kt:105-111 | after a fetch no flag is set, and more pages are expected iff the page had exactly `PAGE_SIZE` rows; page and query are unchanged |
| WorksViewModel.Completed | composeApp/src/desktopMain/kotlin/org/christophertwo/aella/ui/screen/works/WorksViewModel.kt:103-112 | no contract of its own: the state after a fetch returns; its properties are stated by `CompleteMerges`, `CompleteDetectsEnd` and `FailedFetchEndsPaging` |
| WorksViewModel.FailedFetchEndsPaging | composeApp/src/desktopMain/kotlin/org/christophertwo/aella/ui/screen/works/WorksViewModel.kt:96-111 | a failed fetch (empty result) clears the list on a new search, keeps it on a load-more, and stops further paging |
| WorksViewModel.LoadMoreBlocksEverything | composeApp/src/desktopMain/kotlin/org/christophertwo/aella/ui/screen/works/WorksViewModel.kt:66-83 | once a load-more has begun, every later load is refused; once a new search has begun, a new search is accepted, and so is a load-more whenever more pages are expected |
| WorksViewModel.FullPagesBound | composeApp/src/desktopMain/kotlin/org/christophertwo/aella/ui/screen/works/WorksViewModel.kt:109-111 | page c is full of m rows iff c lies before the last page |
| WorksViewModel.PageOfIsBetween | composeApp/src/desktopMain/kotlin/org/christophertwo/aella/ui/screen/works/WorksViewModel.kt:88 | page p of a list is its slice from (p-1)*10 to p*10, and it is full iff the list reaches p*10 |
| WorksViewModel.NewSearchShowsFirstPage | composeApp/src/desktopMain/kotlin/org/christophertwo/aella/ui/screen/works/WorksViewModel.kt:65-113 | a new search that completes shows exactly the first page of the results |
| WorksViewModel.LoadMoreShowsNextPage | composeApp/src/desktopMain/kotlin/org/christophertwo/aella/ui/screen/works/WorksViewModel.kt:65-113 | a load-more that completes adds exactly the next page and keeps the invariant |
| WorksViewModel.SessionShowsPages | composeApp/src/desktopMain/kotlin/org/christophertwo/aella/ui/screen/works/WorksViewModel.kt:65-113 | after a new search and n load-mores the list shows the first min(n + 1, last) pages, with no duplicate and no gap |
| WorksViewModel.SessionShowsEverything | composeApp/src/desktopMain/kotlin/org/christophertwo/aella/ui/screen/works/WorksViewModel.kt:68-111 | after enough load-mores the list is every matching row in store order; paging stops and further load-mores are refused |
| WorksViewModel.SessionEndShowsAll | composeApp/src/desktopMain/kotlin/org/christophertwo/aella/ui/screen/works/WorksViewModel.kt:109-111 | a session that expects no more pages shows the whole result |
| WorksViewModel.OverlapSkipsAPage | composeApp/src/desktopMain/kotlin/org/christophertwo/aella/ui/screen/works/WorksViewModel.kt:66-113 | a load-more accepted during a new search leaves page 2 as current while page 1 is shown, so the next load-more asks for page 3 |
| WorksViewModel.TwentyFiveProjects | composeApp/src/desktopMain/kotlin/org/christophertwo/aella/ui/screen/works/WorksViewModel.kt:65-113 | with 25 rows the session shows 10, then 20 with more expected, then all 25 with paging stopped |
| WorksViewModel.Fetched | composeApp/src/desktopMain/kotlin/org/christophertwo/aella/ui/screen/works/WorksViewModel.kt:85-100 | a blank query fetches the converted listing window for the fetch's page and any other query the converted search window; a page with a row that does not decode becomes an empty page; at most 10 rows |
| WorksViewModel.WorksViewModel.constructor | composeApp/src/desktopMain/kotlin/org/christophertwo/aella/ui/screen/works/WorksViewModel.kt:34-37 | construction begins a new search for page 1 with one fetch in flight and no search pending |
| WorksViewModel.WorksViewModel.LoadProjects | composeApp/src/desktopMain/kotlin/org/christophertwo/aella/ui/screen/works/WorksViewModel.kt:65-83 | a load starts iff not refused by the guard (refused while a load-more runs, and a load-more also when no more pages); a started load sets the flags and page and issues exactly one fetch; a refused one changes nothing |
| WorksViewModel.WorksViewModel.OnAction | composeApp/src/desktopMain/kotlin/org/christophertwo/aella/ui/screen/works/WorksViewModel.kt:42-59 | a query change only stores the query and (re)schedules the debounced search, issuing no fetch; a load-more is `LoadProjects(false)` |
| WorksViewModel.WorksViewModel.SearchDelayElapsed | composeApp/src/desktopMain/kotlin/org/christophertwo/aella/ui/screen/works/WorksViewModel.kt:47-51 | a cancelled or absent debounce starts nothing; the pending one starts a new search iff the guard lets it through |
| WorksViewModel.WorksViewModel.Complete | composeApp/src/desktopMain/kotlin/org/christophertwo/aella/ui/screen/works/WorksViewModel.kt:85-113 | completing any in-flight fetch applies its page as `Completed` and removes just that fetch, keeping the flag invariant |
| WorksViewModel.TypingBurst | composeApp/src/desktopMain/kotlin/org/christophertwo/aella/ui/screen/works/WorksViewModel.kt:44-51 | typing "a", "ab", "abc" before the debounce ends starts one search, for "abc"; a second expiry finds nothing pending; the only other fetch is the initial one |
| WorksViewModel.ScrollTwice | composeApp/src/desktopMain/kotlin/org/christophertwo/aella/ui/screen/works/WorksViewModel.kt:54-70 | after the first page, two load-mores in a row issue exactly one fetch, for page 2, and none when the first page was short |
| WorksViewModel.ScrollToEnd | composeApp/src/desktopMain/kotlin/org/christophertwo/aella/ui/screen/works/WorksViewModel.kt:54-113 | scrolling until paging stops ends with every project listed in store order |
| Dao.TableOfAt | composeApp/src/desktopMain/kotlin/org/christophertwo/aella/data/room/entity/ProjectEntity.kt:25 | with unique ids, every row is the table's entry for its key |
| Dao.Upserted | composeApp/src/desktopMain/kotlin/org/christophertwo/aella/data/room/dao/ProjectDao.kt:23-24 | after an upsert the row is present, no other row is new, and every row with another id remains |
| Dao.UpsertedUnique | composeApp/src/desktopMain/kotlin/org/christophertwo/aella/data/room/entity/ProjectEntity.kt:25 | an upsert keeps ids unique and leaves only the new row under its id |
| Dao.TableAfterUpsert | composeApp/src/desktopMain/kotlin/org/christophertwo/aella/data/room/dao/ProjectDao.kt:23-24 | keyed view: an upsert sets the entry for the project's id and changes no other key |
| Dao.Deleted | composeApp/src/desktopMain/kotlin/org/christophertwo/aella/data/room/dao/ProjectDao.kt:30-31 | a row remains after a delete iff it was there and has another id; ids stay unique |
| Dao.TableAfterDelete | composeApp/src/desktopMain/kotlin/org/christophertwo/aella/data/room/dao/ProjectDao.kt:30-31 | keyed view: a delete removes exactly the project's key |
| Dao.FindById | composeApp/src/desktopMain/kotlin/org/christophertwo/aella/data/room/dao/ProjectDao.kt:38-39 | a row is found iff some row has the id, and the one found is such a row |
| Dao.FindByIdInTable | composeApp/src/desktopMain/kotlin/org/christophertwo/aella/data/room/dao/ProjectDao.kt:38-39 | with unique ids the lookup finds exactly the table's entry for the key |
| Dao.InsertByDate | composeApp/src/desktopMain/kotlin/org/christophertwo/aella/data/room/dao/ProjectDao.kt:45 | inserting into the date order adds exactly that row |
| Dao.InsertByDateSorted | composeApp/src/desktopMain/kotlin/org/christophertwo/aella/data/room/dao/ProjectDao.kt:45 | inserting into a list in descending date order keeps it in that order |
| Dao.SortByDateDesc | composeApp/src/desktopMain/kotlin/org/christophertwo/aella/data/room/dao/ProjectDao.kt:45 | `ORDER BY creationDate DESC` gives a permutation of the rows in non-increasing date order |
| Dao.LikeAnything | composeApp/src/desktopMain/kotlin/org/christophertwo/aella/data/room/dao/ProjectDao.kt:48 | the pattern `%` matches every value |
| Dao.LikeTrailingPercent | composeApp/src/desktopMain/kotlin/org/christophertwo/aella/data/room/dao/ProjectDao.kt:48 | for a wildcard-free q, `q%` matches iff the value starts with q, ignoring ASCII case |
| Dao.LikeLeadingPercent | composeApp/src/desktopMain/kotlin/org/christophertwo/aella/data/room/dao/ProjectDao.kt:48 | `%rest` matches iff some suffix of the value matches `rest` |
| Dao.LikeSubstring | composeApp/src/desktopMain/kotlin/org/christophertwo/aella/data/room/dao/ProjectDao.kt:48 | for a wildcard-free q, `%q%` matches iff the value contains q, ignoring ASCII case |
| Dao.Like | composeApp/src/desktopMain/kotlin/org/christophertwo/aella/data/room/dao/ProjectDao.kt:48 | no contract of its own: SQL `LIKE`; its meaning is stated by `LikeAnything`, `LikeTrailingPercent`, `LikeLeadingPercent` and `LikeSubstring` |
| Dao.FilterMatching | composeApp/src/desktopMain/kotlin/org/christophertwo/aella/data/room/dao/ProjectDao.kt:48 | the `WHERE name LIKE … OR description LIKE …` filter keeps exactly the matching rows, each as often as it is stored; its k-th row is the row at the k-th matching position (`KeptIndices`), so it keeps their order, and a date-ordered input gives a date-ordered result |
| Dao.KeptIndices | composeApp/src/desktopMain/kotlin/org/christophertwo/aella/data/room/dao/ProjectDao.kt:48 | the positions of the rows that pass a test, in strictly increasing order, every passing position included |
| Dao.FilterAtKeptIndices | composeApp/src/desktopMain/kotlin/org/christophertwo/aella/data/room/dao/ProjectDao.kt:48 | a filter's k-th row is the row at the k-th passing position, so it keeps the passing rows in their order, with nothing repeated or dropped |
| Dao.Skipped | composeApp/src/desktopMain/kotlin/org/christophertwo/aella/data/room/dao/ProjectDao.kt:45-46 | `OFFSET` never skips more rows than there are |
| Dao.Window | composeApp/src/desktopMain/kotlin/org/christophertwo/aella/data/room/dao/ProjectDao.kt:45-46 | `LIMIT`/`OFFSET` gives the consecutive rows after the skipped ones, as many as the limit allows (all when the limit is negative) |
| Dao.WindowIsPage | composeApp/src/desktopMain/kotlin/org/christophertwo/aella/data/room/dao/ProjectDao.kt:45-46 | the window for page p is the slice from (p-1)*size to p*size |
| Dao.PagesArePrefix | composeApp/src/desktopMain/kotlin/org/christophertwo/aella/data/room/dao/ProjectDao.kt:45-46 | pages 1..n taken in turn are exactly the first n*size rows: no overlap, no gap |
| Dao.ProjectDao.constructor | composeApp/src/desktopMain/kotlin/org/christophertwo/aella/data/room/dao/ProjectDao.kt:15-16 | a new table is empty and valid |
| Dao.ProjectDao.InsertOrUpdate | composeApp/src/desktopMain/kotlin/org/christophertwo/aella/data/room/dao/ProjectDao.kt:23-24 | the rows become `Upserted`, the table maps the id to the project and nothing else changes, ids stay unique |
| Dao.ProjectDao.Delete | composeApp/src/desktopMain/kotlin/org/christophertwo/aella/data/room/dao/ProjectDao.kt:30-31 | the rows become `Deleted` and the table loses exactly the project's key |
| Dao.ProjectDao.GetProjectById | composeApp/src/desktopMain/kotlin/org/christophertwo/aella/data/room/dao/ProjectDao.kt:38-39 | the row is found iff the key is in the table, and it is the table's entry |
| Dao.ProjectDao.Ordered | composeApp/src/desktopMain/kotlin/org/christophertwo/aella/data/room/dao/ProjectDao.kt:45 | the table in `creationDate DESC` order: the same rows, sorted |
| Dao.ProjectDao.GetAllProjects | composeApp/src/desktopMain/kotlin/org/christophertwo/aella/data/room/dao/ProjectDao.kt:45-46 | at most `limit` rows, which are the ordered rows right after the offset; fewer only at the end of the table |
| Dao.ProjectDao.Matching | composeApp/src/desktopMain/kotlin/org/christophertwo/aella/data/room/dao/ProjectDao.kt:48 | exactly the rows whose name or description matches, each once as stored, at the matching positions of the date-ordered table in increasing order, hence in date order with ties in table order |
| Dao.ProjectDao.SearchProjects | composeApp/src/desktopMain/kotlin/org/christophertwo/aella/data/room/dao/ProjectDao.kt:48-49 | the `LIMIT`/`OFFSET` window of the matching rows; every row returned is in the table and matches |
| Repository.Offset | composeApp/src/desktopMain/kotlin/org/christophertwo/aella/data/room/impl/ProjectRepositoryImpl.kt:22 | page 1 starts at offset 0, and each page starts one page size before the next |
| Repository.SearchPattern | composeApp/src/desktopMain/kotlin/org/christophertwo/aella/data/room/impl/ProjectRepositoryImpl.kt:59 | the pattern is the query between two `%` |
| Repository.SearchIsSubstringMatch | composeApp/src/desktopMain/kotlin/org/christophertwo/aella/data/room/impl/ProjectRepositoryImpl.kt:52-63 | for a wildcard-free query, a row matches iff its name or description contains the query, ignoring ASCII case |
| Repository.ToProjectEntity | composeApp/src/desktopMain/kotlin/org/christophertwo/aella/data/room/impl/ProjectRepositoryImpl.kt:77-87 | the fields are copied and the team is stored as JSON that decodes back to it |
| Repository.ToProjectData | composeApp/src/desktopMain/kotlin/org/christophertwo/aella/data/room/impl/ProjectRepositoryImpl.kt:65-75 | a row converts iff its team JSON decodes; the fields are copied and the decoded list becomes `teamMembers`; a failure reports the malformed JSON |
| Repository.DataRoundTrip | composeApp/src/desktopMain/kotlin/org/christophertwo/aella/data/room/impl/ProjectRepositoryImpl.kt:65-87 | a project stored and read back is unchanged |
| Repository.EntityRoundTrip | composeApp/src/desktopMain/kotlin/org/christophertwo/aella/data/room/impl/ProjectRepositoryImpl.kt:65-87 | a row whose team JSON is canonical is unchanged by reading and storing again |
| Repository.MapRows | composeApp/src/desktopMain/kotlin/org/christophertwo/aella/data/room/impl/ProjectRepositoryImpl.kt:23 | mapping succeeds iff every row converts, keeping length and order; otherwise it fails with a malformed JSON |
| Repository.MapRowsFirstFailure | composeApp/src/desktopMain/kotlin/org/christophertwo/aella/data/room/impl/ProjectRepositoryImpl.kt:23 | the error reported is that of the first row that does not convert |
| Repository.MapRowsPointwise | composeApp/src/desktopMain/kotlin/org/christophertwo/aella/data/room/impl/ProjectRepositoryImpl.kt:23 | rows that each convert to the matching project map to that list |
| Repository.MapRowsWindow | composeApp/src/desktopMain/kotlin/org/christophertwo/aella/data/room/impl/ProjectRepositoryImpl.kt:23-60 | converting a window of the rows is the same window of the converted rows |
| Repository.ProjectRepositoryImpl.constructor | composeApp/src/desktopMain/kotlin/org/christophertwo/aella/data/room/impl/ProjectRepositoryImpl.kt:16-18 | the repository wraps the given DAO |
| Repository.ProjectRepositoryImpl.GetProjects | composeApp/src/desktopMain/kotlin/org/christophertwo/aella/data/room/impl/ProjectRepositoryImpl.kt:20-25 | for every table, the result is the conversion of the DAO window at offset `(page - 1) * pageSize` of the date-ordered rows (so it fails only when a row of that page does not decode); at most `pageSize` projects; when the whole table decodes, exactly page `page` of all projects |
| Repository.ProjectRepositoryImpl.SearchProjects | composeApp/src/desktopMain/kotlin/org/christophertwo/aella/data/room/impl/ProjectRepositoryImpl.kt:52-63 | for every table, the result is the conversion of the DAO window of the rows matching `%query%`; at most `pageSize` projects; when the matches decode, exactly page `page` of the matching projects |
| Repository.ProjectRepositoryImpl.GetProject | composeApp/src/desktopMain/kotlin/org/christophertwo/aella/data/room/impl/ProjectRepositoryImpl.kt:28-32 | no project iff the id is not stored; otherwise the stored row converted |
| Repository.ProjectRepositoryImpl.AddProject | composeApp/src/desktopMain/kotlin/org/christophertwo/aella/data/room/impl/ProjectRepositoryImpl.kt:34-38 | the project is upserted under its id, and reading that id gives the project back |
| Repository.ProjectRepositoryImpl.UpdateProject | composeApp/src/desktopMain/kotlin/org/christophertwo/aella/data/room/impl/ProjectRepositoryImpl.kt:40-44 | the same upsert as adding: the id now maps to the project, which reads back unchanged |
| Repository.ProjectRepositoryImpl.DeleteProject | composeApp/src/desktopMain/kotlin/org/christophertwo/aella/data/room/impl/ProjectRepositoryImpl.kt:46-50 | the project's key is removed, and reading that id then gives no project |
| Repository.UpsertThenFind | composeApp/src/desktopMain/kotlin/org/christophertwo/aella/data/room/impl/ProjectRepositoryImpl.kt:28-38 | after an upsert the lookup by id finds the stored project and it converts back to the project |
| Repository.DeleteThenFind | composeApp/src/desktopMain/kotlin/org/christophertwo/aella/data/room/impl/ProjectRepositoryImpl.kt:28-50 | after a delete the id is not found, and rows with other ids are kept |
| ProjectModel.EmptyProject | composeApp/src/desktopMain/kotlin/org/christophertwo/aella/utils/model/ProjectData.kt:16-23 | the default project has empty texts, status COMPLETED and no team |
| ProjectModel.DummyProject | composeApp/src/desktopMain/kotlin/org/christophertwo/aella/utils/model/ProjectData.kt:28-35 | placeholder i has id `proj_i`, name `Proyecto Alpha i+1`, the given status and the team Ana, Luis, Eva |
| ProjectModel.GenerateDummyProjects | composeApp/src/desktopMain/kotlin/org/christophertwo/aella/utils/model/ProjectData.kt:25-37 | one placeholder per index from `(page-1)*pageSize` on, `pageSize` of them (none when it is not positive) |
| ProjectModel.DummyIdNamesIndex | composeApp/src/desktopMain/kotlin/org/christophertwo/aella/utils/model/ProjectData.kt:29 | a placeholder id determines its index |
| ProjectModel.DummyIdsDistinct | composeApp/src/desktopMain/kotlin/org/christophertwo/aella/utils/model/ProjectData.kt:26-29 | the ids on one page are pairwise distinct |
| ProjectModel.PageIndicesDisjoint | composeApp/src/desktopMain/kotlin/org/christophertwo/aella/utils/model/ProjectData.kt:26-27 | two different pages of one size cover disjoint index ranges |
| ProjectModel.DummyPagesDisjoint | composeApp/src/desktopMain/kotlin/org/christophertwo/aella/utils/model/ProjectData.kt:25-37 | two different pages share no id |
| ProjectModel.DummyDateDay | composeApp/src/desktopMain/kotlin/org/christophertwo/aella/utils/model/ProjectData.kt:33 | for a non-negative index the date is `1d/07/2025` with one digit d from 1 to 9 |
| ProjectModel.DummyDescriptionNamesNumber | composeApp/src/desktopMain/kotlin/org/christophertwo/aella/utils/model/ProjectData.kt:31 | the description names the project number i+1 |
| ProjectModel.DummyDateOfNegativeIndex | composeApp/src/desktopMain/kotlin/org/christophertwo/aella/utils/model/ProjectData.kt:26-33 | page 0 gives index -2 the date `1-1/07/2025`, from Kotlin's truncating remainder |
| ProjectStatus.DisplayName | composeApp/src/desktopMain/kotlin/org/christophertwo/aella/utils/enums/ProjectStatus.kt:12-17 | no display name is a constant name, so `valueOf` of a display name fails |
| ProjectStatus.ValueOf | composeApp/src/desktopMain/kotlin/org/christophertwo/aella/utils/enums/ProjectStatus.kt:12-17 | `valueOf` gives the constant with that name, and fails with no such constant otherwise |
| ProjectStatus.EntriesAreAllConstants | composeApp/src/desktopMain/kotlin/org/christophertwo/aella/utils/enums/ProjectStatus.kt:13-16 | `entries` lists the four constants once each, in declaration order |
| ProjectStatus.FieldsDistinguishConstants | composeApp/src/desktopMain/kotlin/org/christophertwo/aella/utils/enums/ProjectStatus.kt:13-16 | different constants differ in name, display name and colour |
| ProjectStatus.ColorsAreOpaqueArgb | composeApp/src/desktopMain/kotlin/org/christophertwo/aella/utils/enums/ProjectStatus.kt:13-16 | every status colour is a fully opaque 32-bit ARGB value |
| Converters.FromProjectStatus | composeApp/src/desktopMain/kotlin/org/christophertwo/aella/data/room/converters/Converters.kt:22-25 | a stored status reads back as the same status, and no other status stores the same text |
| Converters.ToProjectStatus | composeApp/src/desktopMain/kotlin/org/christophertwo/aella/data/room/converters/Converters.kt:32-35 | reading succeeds iff the text is one of the four names, gives the status of that name, and otherwise fails naming the text |
| Converters.DisplayNameIsNotStorable | composeApp/src/desktopMain/kotlin/org/christophertwo/aella/data/room/converters/Converters.kt:32-35 | a display name is never a readable stored status |
| Converters.ToStringList | composeApp/src/desktopMain/kotlin/org/christophertwo/aella/data/room/converters/Converters.kt:53-56 | reading the team succeeds iff the JSON decodes, gives the decoded list, and otherwise reports the JSON |
| Converters.FromStringList | composeApp/src/desktopMain/kotlin/org/christophertwo/aella/data/room/converters/Converters.kt:43-46 | the team is written as JSON that decodes back to the list |
| Converters.StringListRoundTrip | composeApp/src/desktopMain/kotlin/org/christophertwo/aella/data/room/converters/Converters.kt:43-56 | a team written as JSON reads back unchanged |
| ProjectList.LoadMoreTriggerPassesGuard | composeApp/src/desktopMain/kotlin/org/christophertwo/aella/ui/components/ProjectList.kt:243-248 | only the last item asks for more, and it asks iff the controller's load-more guard would let it through |
| ProjectList.ParseTeam | composeApp/src/desktopMain/kotlin/org/christophertwo/aella/ui/components/ProjectList.kt:206 | reading a team text gives at least one member, each without a comma and trimmed |
| ProjectList.TeamTextRoundTrip | composeApp/src/desktopMain/kotlin/org/christophertwo/aella/ui/components/ProjectList.kt:203-206 | showing and reading back a team of trimmed comma-free names gives it back; an empty team comes back as one empty name |
| ProjectList.CommaSplitsAMember | composeApp/src/desktopMain/kotlin/org/christophertwo/aella/ui/components/ProjectList.kt:203-206 | a member "Ana, Luis" comes back as two members "Ana" and "Luis" |
| ProjectList.StatusOptions | composeApp/src/desktopMain/kotlin/org/christophertwo/aella/ui/components/ProjectList.kt:167 | the options are the display names of the statuses, in declaration order |
| ProjectList.InitialFields | composeApp/src/desktopMain/kotlin/org/christophertwo/aella/ui/components/ProjectList.kt:162-211 | the dialog shows the selected project's fields (the team joined by ", "), or "En Progreso" and empty texts with no selection; the status shown is always one of the options |
| ProjectList.OnStateChange | composeApp/src/desktopMain/kotlin/org/christophertwo/aella/ui/components/ProjectList.kt:168-208 | no contract of its own: what each edit callback does; stated by `NoSelectionSavesNothing`, `TextEditsChangeOneField`, `StatusChoiceAlwaysThrows` and `UnchangedTeamSavesSameProject` |
| ProjectList.NoSelectionSavesNothing | composeApp/src/desktopMain/kotlin/org/christophertwo/aella/ui/components/ProjectList.kt:168-208 | with no project selected no callback saves anything |
| ProjectList.TextEditsChangeOneField | composeApp/src/desktopMain/kotlin/org/christophertwo/aella/ui/components/ProjectList.kt:174-208 | each text callback saves the selected project with that one field replaced |
| ProjectList.StatusChoiceAlwaysThrows | composeApp/src/desktopMain/kotlin/org/christophertwo/aella/ui/components/ProjectList.kt:164-172 | choosing any offered status throws, because the options are display names and `valueOf` needs constant names |
| ProjectList.UnchangedTeamSavesSameProject | composeApp/src/desktopMain/kotlin/org/christophertwo/aella/ui/components/ProjectList.kt:201-208 | saving the team text as first shown gives back the project, for a non-empty team of trimmed comma-free names |
| ProjectList.ProjectListScreen.constructor | composeApp/src/desktopMain/kotlin/org/christophertwo/aella/ui/components/ProjectList.kt:263 | at first nothing is selected and the dialog is hidden |
| ProjectList.ProjectListScreen.OnCardClick | composeApp/src/desktopMain/kotlin/org/christophertwo/aella/ui/components/ProjectList.kt:237-240 | clicking a card selects its project and opens the dialog |
| ProjectList.ProjectListScreen.OnDismissRequest | composeApp/src/desktopMain/kotlin/org/christophertwo/aella/ui/components/ProjectList.kt:265 | dismissing hides the dialog and keeps the selection |
| ProjectList.ProjectListScreen.OnCancel | composeApp/src/desktopMain/kotlin/org/christophertwo/aella/ui/components/ProjectList.kt:270-275 | "Cancelar" hides the dialog and keeps the selection |
| ProjectList.ProjectListScreen.OnSave | composeApp/src/desktopMain/kotlin/org/christophertwo/aella/ui/components/ProjectList.kt:276-281 | "Guardar" only hides the dialog |
| ProjectList.ClickShowsProject | composeApp/src/desktopMain/kotlin/org/christophertwo/aella/ui/components/ProjectList.kt:162-240 | after a card click the dialog shows that project's name, status and team, whatever was selected before |
| ThemeColors.GetColor | composeApp/src/desktopMain/kotlin/org/christophertwo/aella/utils/config/ThemeColorsConfig.kt:11-18 | a known label gives the colour with that label; any other text gives Green |
| ThemeColors.GetColorOfLabel | composeApp/src/desktopMain/kotlin/org/christophertwo/aella/utils/config/ThemeColorsConfig.kt:5-18 | looking up a colour's own label gives that colour |
| ThemeColors.LabelsAndColorsDistinct | composeApp/src/desktopMain/kotlin/org/christophertwo/aella/utils/config/ThemeColorsConfig.kt:5-8 | different theme colours differ in label and colour value, and all are opaque |
| MainViewModel.PreferenceSettings.constructor | composeApp/src/desktopMain/kotlin/org/christophertwo/aella/data/preference/PreferenceSettings.kt:5 | the store starts with the given preferences |
| MainViewModel.PreferenceSettings.GetPreference | composeApp/src/desktopMain/kotlin/org/christophertwo/aella/data/preference/PreferenceSettings.kt:6-9 | a value iff the key is stored, and then the stored value |
| MainViewModel.PreferenceSettings.SetPreference | composeApp/src/desktopMain/kotlin/org/christophertwo/aella/data/preference/PreferenceSettings.kt:11-17 | the key now maps to the value; other keys are unchanged |
| MainViewModel.PreferenceSettings.ClearPreference | composeApp/src/desktopMain/kotlin/org/christophertwo/aella/data/preference/PreferenceSettings.kt:19-22 | exactly that key is removed |
| MainViewModel.PreferenceSettings.ClearAllPreferences | composeApp/src/desktopMain/kotlin/org/christophertwo/aella/data/preference/PreferenceSettings.kt:24-27 | no preference remains |
| MainViewModel.LoadedTheme | composeApp/src/desktopMain/kotlin/org/christophertwo/aella/MainViewModel.kt:31-37 | dark iff the saved theme is "Obscuro"; the colour of the saved label, or Green when none is saved |
| MainViewModel.UnknownColorLoadsGreen | composeApp/src/desktopMain/kotlin/org/christophertwo/aella/MainViewModel.kt:35 | a missing or unknown colour label loads Green |
| MainViewModel.SavedThemeIsLoaded | composeApp/src/desktopMain/kotlin/org/christophertwo/aella/MainViewModel.kt:31-61 | the theme and colour saved by the change methods are what the next load reads |
| MainViewModel.MainViewModel.constructor | composeApp/src/desktopMain/kotlin/org/christophertwo/aella/MainViewModel.kt:21-29 | after construction the flags are those loaded from the preferences |
| MainViewModel.MainViewModel.LoadInitialTheme | composeApp/src/desktopMain/kotlin/org/christophertwo/aella/MainViewModel.kt:31-37 | the dark flag and colour become those loaded from the preferences |
| MainViewModel.MainViewModel.ChangeTheme | composeApp/src/desktopMain/kotlin/org/christophertwo/aella/MainViewModel.kt:43-49 | the theme is saved; dark iff it is "Obscuro"; the colour is unchanged |
| MainViewModel.MainViewModel.ChangeThemeColor | composeApp/src/desktopMain/kotlin/org/christophertwo/aella/MainViewModel.kt:55-61 | the colour label is saved and its colour applied (Green if unknown); the dark flag is unchanged |
| MainViewModel.MainViewModel.GetCurrentThemeName | composeApp/src/desktopMain/kotlin/org/christophertwo/aella/MainViewModel.kt:67-69 | "Obscuro" iff dark, "Claro" iff light |
| MainViewModel.ChangesSurviveRestart | composeApp/src/desktopMain/kotlin/org/christophertwo/aella/MainViewModel.kt:27-61 | after changing theme and colour, a new model over the same preferences starts with the same theme and colour |
| HomeViewModel.NavItems | composeApp/src/desktopMain/kotlin/org/christophertwo/aella/utils/model/NavItem.kt:20-40 | three items, for Workspaces, Eva and Works in that order, each with a label |
| HomeViewModel.NextState | composeApp/src/desktopMain/kotlin/org/christophertwo/aella/ui/screen/home/HomeViewModel.kt:24-62 | no contract of its own: the home state after an action; stated by `ActionsTouchOnlyTheirFields` and `DialogOpensAndCloses` |
| HomeViewModel.ActionsTouchOnlyTheirFields | composeApp/src/desktopMain/kotlin/org/christophertwo/aella/ui/screen/home/HomeViewModel.kt:24-62 | each action changes only the state fields it is about, and never the item list |
| HomeViewModel.DialogOpensAndCloses | composeApp/src/desktopMain/kotlin/org/christophertwo/aella/ui/screen/home/HomeViewModel.kt:30-50 | opening shows the dialog with the current theme selected; closing and saving hide it |
| HomeViewModel.HomeViewModel.constructor | composeApp/src/desktopMain/kotlin/org/christophertwo/aella/ui/screen/home/HomeViewModel.kt:11-22 | the state starts at its defaults, first item selected |
| HomeViewModel.HomeViewModel.OnAction | composeApp/src/desktopMain/kotlin/org/christophertwo/aella/ui/screen/home/HomeViewModel.kt:24-62 | the state follows `NextState`; only Save reaches the main model, which then saves and applies the dialog's theme and colour; all other actions leave the theme and preferences alone |
| HomeViewModel.OpenThenClose | composeApp/src/desktopMain/kotlin/org/christophertwo/aella/ui/screen/home/HomeViewModel.kt:30-42 | opening and closing the dialog leaves theme, colour and preferences unchanged |
| HomeViewModel.OpenThenSave | composeApp/src/desktopMain/kotlin/org/christophertwo/aella/ui/screen/home/HomeViewModel.kt:34-50 | opening and saving at once keeps the dark flag and applies the colour last chosen in the dialog |
| Text.Split | composeApp/src/desktopMain/kotlin/org/christophertwo/aella/ui/components/ProjectList.kt:206 | `split(",")` gives at least one piece, none containing the delimiter, and the pieces joined with the delimiter give the text back |
| Text.Trim | composeApp/src/desktopMain/kotlin/org/christophertwo/aella/ui/components/ProjectList.kt:206 | `trim()` gives the stretch of the text that starts after its leading whitespace and is followed only by whitespace, with no whitespace at either end |
| Text.JoinThenSplit | composeApp/src/desktopMain/kotlin/org/christophertwo/aella/ui/components/ProjectList.kt:203-206 | splitting the ", "-joined comma-free pieces and trimming gives the trimmed pieces (one empty piece for none) |
| Text.ParseIntToString | composeApp/src/desktopMain/kotlin/org/christophertwo/aella/utils/model/ProjectData.kt:29 | the decimal text of an integer reads back as that integer |
| Text.IntToStringInjective | composeApp/src/desktopMain/kotlin/org/christophertwo/aella/utils/model/ProjectData.kt:29 | different integers have different decimal texts |
| Text.KotlinRem | composeApp/src/desktopMain/kotlin/org/christophertwo/aella/utils/model/ProjectData.kt:33 | Kotlin's `%` truncates: the remainder has the sign of the dividend, is smaller than the divisor, and differs from the dividend by a multiple of the divisor |
| Text.LexTransitive | composeApp/src/desktopMain/kotlin/org/christophertwo/aella/data/room/dao/ProjectDao.kt:45 | the string order used by `ORDER BY creationDate` is transitive |
| Text.LexTotal | composeApp/src/desktopMain/kotlin/org/christophertwo/aella/data/room/dao/ProjectDao.kt:45 | any two different dates are ordered one way or the other |
| Text.LexAsymmetric | composeApp/src/desktopMain/kotlin/org/christophertwo/aella/data/room/dao/ProjectDao.kt:45 | no two dates are each before the other |

## Left out

- Compose rendering (layout, cards, colours on screen, the progress indicator, `NavItem` icons and screen contents) is not modelled. It is drawing, not state.
- Coroutines, dispatchers and the 300 ms `delay` are replaced by explicit steps (`LoadProjects`, `SearchDelayElapsed`, `Complete`). Wall-clock time is not modelled. `viewModelScope` is taken to dispatch immediately, so the flag update runs at once. The source text does not show the dispatcher.
- `Flow`s (`getProjectById`, `getProject`, `StateFlow`s) are modelled as their current value. Re-emission on later table changes is not modelled.
- Room and SQLite themselves (transactions, threads, `withContext(Dispatchers.IO)`, the schema and migrations) are not modelled. The DAO is a sequence of rows with the semantics of its queries.
- Dao.SortByDateDesc: ties between equal `creationDate` values keep insertion order. SQLite leaves the order of ties unspecified.
- Dao.Like: `LIKE` uses ASCII-only case folding and no `ESCAPE`, as in SQLite's default. Non-ASCII case folding is not modelled.
- The JSON codec of kotlinx.serialization is kept abstract (`Converters.ListCodec`). Only its round trip is assumed, and its text format is not modelled.
- `ProjectStatus.entries.random()` in `generateDummyProjects` is a caller-supplied function `randomStatus`. Randomness is not modelled.
- Repository.Offset: Kotlin's 32-bit `Int` wrap-around in `(page - 1) * pageSize` and in `i + 1` is not modelled. Integers are unbounded, and the pages used here are far below 2^31.
- The `PreferenceKey` object is not part of this model. Its two key texts are placeholders, `"THEME_KEY"` and `"THEME_COLOR_KEY"`, which differ from each other, as the code needs them to.
- `java.util.prefs.Preferences` persistence on disk is a map field of `PreferenceSettings`. Node paths and backing-store errors are not modelled.
- `HomeState` in the source declares only `selectedItem` and `navItems`, but `HomeViewModel` uses `isConfigDialogOpen`, `themeSelectedInDialog` and `colorThemeSelectedInDialog` too. They are added with the defaults `false`, `""` and `""`.
- `SettingsDialog` itself, the `SettingItem` variants and the slider's `Float` state are not modelled. The edit callbacks are modelled as functions of the edit (`ProjectList.OnStateChange`), with `saveProject` as the `Saved` outcome.
- In the source, `SettingsDialog.kt` only assigns `item.state.value` and never calls `onStateChange`. `SettingItem.TextEntrySetting` also declares no `onStateChange` parameter, although `ProjectList.kt` passes one. So what the model states about the callbacks is what they would do if the dialog called them.
- `WorkspaceViewModel` (one branch is a `TODO()`), the worker and client repositories and their screens are outside this model. They pass data through and hold no rule of their own.
- MainViewModel.MainViewModel.ChangeTheme and ChangeThemeColor complete before the next action, so two overlapping theme launches are not interleaved.
- Exceptions are `Err` results (`NoSuchConstant`, `MalformedJson`). Their stack traces and the `printStackTrace` call are not modelled.
