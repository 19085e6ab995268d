/**
 * The controller of the works screen: paged loading, a guard against overlapping loads,
 * end detection by a short page, and a debounced search.
 *
 * `loadProjects` is split in two steps. Begin is what runs when it is called: the guard, the
 * loading flags and the target page. Complete is what runs when the fetch returns: merging the
 * page and detecting the end. Between them the fetch is "in flight"; fetches may complete in any
 * order, so interleavings are sequences of method calls.
 */
module WorksViewModel {
  import opened Text
  import opened Wrappers
  import opened ProjectModel
  import opened Dao
  import opened Repository
  import opened WorksState

  /** `PAGE_SIZE`. */
  const PageSize: nat := 10

  /** A fetch that has been started: its kind, its page and the query it reads. */
  datatype Fetch = Fetch(isNewSearch: bool, page: int, query: string)

  // ---------------------------------------------------------------------------
  // The two steps of loadProjects, on the state record
  // ---------------------------------------------------------------------------

  /** The guard: a load is dropped while a load-more runs, and a load-more when no page is left. */
  predicate Refuses(s: WorksState, isNewSearch: bool) {
    s.isLoadingMore || (!isNewSearch && !s.hasMorePages)
  }

  /** The page a load asks for: 1 for a new search, the next one for a load-more. */
  function PageToLoad(s: WorksState, isNewSearch: bool): int {
    if isNewSearch then 1 else s.currentPage + 1
  }

  /** What Begin starts: the query is the one in the state at that moment. */
  function FetchOf(s: WorksState, isNewSearch: bool): Fetch {
    Fetch(isNewSearch, PageToLoad(s, isNewSearch), s.searchQuery)
  }

  /** The state once a load has begun: the flags of its kind and the target page. */
  function Begun(s: WorksState, isNewSearch: bool): WorksState {
    s.(isLoading := isNewSearch, isLoadingMore := !isNewSearch, currentPage := PageToLoad(s, isNewSearch))
  }

  /** The state once fetch f has returned `result` (an empty list when it threw). */
  function Completed(s: WorksState, f: Fetch, result: seq<ProjectData>): WorksState {
    var current := if f.isNewSearch then [] else s.projects;
    s.(isLoading := false, isLoadingMore := false, projects := current + result,
       hasMorePages := |result| == PageSize)
  }

  lemma BeginSetsFlagsAndPage(s: WorksState, isNewSearch: bool)
    ensures var t := Begun(s, isNewSearch);
      t.isLoading == isNewSearch && t.isLoadingMore == !isNewSearch
      && t.currentPage == (if isNewSearch then 1 else s.currentPage + 1)
      && t.projects == s.projects && t.searchQuery == s.searchQuery && t.hasMorePages == s.hasMorePages
  {
  }

  /** A new search replaces the list, a load-more appends to it; the length grows by the page's length. */
  lemma CompleteMerges(s: WorksState, f: Fetch, result: seq<ProjectData>)
    ensures var t := Completed(s, f, result);
      (f.isNewSearch ==> t.projects == result)
      && (!f.isNewSearch ==> t.projects[..|s.projects|] == s.projects && t.projects[|s.projects|..] == result)
      && |t.projects| == (if f.isNewSearch then 0 else |s.projects|) + |result|
  {
  }

  /** After completion nothing is loading, and more pages are expected exactly when the page was full. */
  lemma CompleteDetectsEnd(s: WorksState, f: Fetch, result: seq<ProjectData>)
    ensures var t := Completed(s, f, result);
      !t.isLoading && !t.isLoadingMore && (t.hasMorePages <==> |result| == PageSize)
      && t.currentPage == s.currentPage && t.searchQuery == s.searchQuery
  {
  }

  /** A fetch that threw counts as an empty page: the list is kept or emptied, and the end is reached. */
  lemma FailedFetchEndsPaging(s: WorksState, f: Fetch)
    ensures var t := Completed(s, f, []);
      t.projects == (if f.isNewSearch then [] else s.projects)
      && !t.hasMorePages && t.currentPage == s.currentPage
  {
  }

  /** While a load-more runs, neither a second load-more nor a new search can begin. */
  lemma LoadMoreBlocksEverything(s: WorksState, isNewSearch: bool, again: bool)
    ensures Refuses(Begun(s, isNewSearch), again) <==> !isNewSearch || (!again && !s.hasMorePages)
  {
  }

  // ---------------------------------------------------------------------------
  // A session: one new search, then load-mores one after another against a fixed list
  // ---------------------------------------------------------------------------

  /** Page `page` of `all`, as the repository returns it for offset `(page - 1) * PageSize`. */
  function PageOf(all: seq<ProjectData>, page: int): seq<ProjectData> {
    Window(all, PageSize, Offset(page, PageSize))
  }

  /** Begin a load and complete it with its page of `all`; a refused load changes nothing. */
  function LoadRound(s: WorksState, all: seq<ProjectData>, isNewSearch: bool): WorksState {
    if Refuses(s, isNewSearch) then s
    else Completed(Begun(s, isNewSearch), FetchOf(s, isNewSearch), PageOf(all, PageToLoad(s, isNewSearch)))
  }

  /** n load-more rounds, one after the other. */
  function LoadMoreRounds(s: WorksState, all: seq<ProjectData>, n: nat): WorksState {
    if n == 0 then s else LoadRound(LoadMoreRounds(s, all, n - 1), all, false)
  }

  /** The list shows the first `currentPage` pages of `all`, and more pages are expected iff they were all full. */
  predicate ShowsPages(s: WorksState, all: seq<ProjectData>) {
    s.currentPage >= 1 && !s.isLoading && !s.isLoadingMore
    && s.projects == Between(all, 0, s.currentPage * PageSize)
    && (s.hasMorePages <==> |all| >= s.currentPage * PageSize)
  }

  /** The number of pages a session over `all` ends with: the full ones and one short (possibly empty) page. */
  function LastPage(count: nat): nat {
    count / PageSize + 1
  }

  lemma FullPagesBound(c: int, m: nat)
    requires c >= 1
    ensures m >= c * PageSize <==> c < LastPage(m)
  {
  }

  lemma PageOfIsBetween(all: seq<ProjectData>, page: int)
    requires page >= 1
    ensures PageOf(all, page) == Between(all, (page - 1) * PageSize, page * PageSize)
    ensures |PageOf(all, page)| == PageSize <==> |all| >= page * PageSize
  {
    WindowIsPage(all, page, PageSize);
  }

  /** A new search that is not refused shows page 1. */
  lemma NewSearchShowsFirstPage(s: WorksState, all: seq<ProjectData>)
    requires !s.isLoadingMore
    ensures ShowsPages(LoadRound(s, all, true), all) && LoadRound(s, all, true).currentPage == 1
  {
    PageOfIsBetween(all, 1);
  }

  /** A load-more that is not refused shows one page more. */
  lemma LoadMoreShowsNextPage(s: WorksState, all: seq<ProjectData>)
    requires ShowsPages(s, all) && s.hasMorePages
    ensures ShowsPages(LoadRound(s, all, false), all)
    ensures LoadRound(s, all, false).currentPage == s.currentPage + 1
  {
    var c := s.currentPage + 1;
    PageOfIsBetween(all, c);
    PageBoundsOrdered(c, PageSize);
    BetweenConcat(all, 0, (c - 1) * PageSize, c * PageSize);
  }

  /**
   * After a new search and n load-more rounds against a fixed list, the screen shows the first
   * min(n + 1, LastPage) pages of the list, end detection included.
   */
  lemma {:induction false} SessionShowsPages(s: WorksState, all: seq<ProjectData>, n: nat)
    requires !s.isLoadingMore
    ensures var t := LoadMoreRounds(LoadRound(s, all, true), all, n);
      ShowsPages(t, all) && t.currentPage == (if n + 1 < LastPage(|all|) then n + 1 else LastPage(|all|))
  {
    var s1 := LoadRound(s, all, true);
    if n == 0 {
      NewSearchShowsFirstPage(s, all);
      FullPagesBound(1, |all|);
    } else {
      SessionShowsPages(s, all, n - 1);
      var t := LoadMoreRounds(s1, all, n - 1);
      FullPagesBound(t.currentPage, |all|);
      if t.hasMorePages {
        LoadMoreShowsNextPage(t, all);
      }
    }
  }

  /** Once the last (short) page has arrived the screen shows the whole list, and no load-more starts. */
  lemma SessionShowsEverything(s: WorksState, all: seq<ProjectData>, n: nat)
    requires !s.isLoadingMore && n + 1 >= LastPage(|all|)
    ensures var t := LoadMoreRounds(LoadRound(s, all, true), all, n);
      t.projects == all && !t.hasMorePages && Refuses(t, false)
  {
    SessionShowsPages(s, all, n);
    var t := LoadMoreRounds(LoadRound(s, all, true), all, n);
    FullPagesBound(t.currentPage, |all|);
    assert t.currentPage * PageSize >= |all|;
  }

  /**
   * A load-more may begin while a new search is in flight; if it returns first, the new search's
   * page 1 then replaces the list while `currentPage` stays 2, so the next load-more asks for page 3.
   */
  lemma OverlapSkipsAPage(s: WorksState, all: seq<ProjectData>)
    requires ShowsPages(s, all) && s.hasMorePages
    ensures var begun := Begun(s, true);
      var both := Begun(begun, false);
      var moreDone := Completed(both, FetchOf(begun, false), PageOf(all, 2));
      var searchDone := Completed(moreDone, FetchOf(s, true), PageOf(all, 1));
      !Refuses(begun, false) && searchDone.currentPage == 2 && searchDone.projects == PageOf(all, 1)
      && PageToLoad(searchDone, false) == 3
  {
  }

  /**
   * What a fetch returns: a page of 10 from `getProjects` for a blank query, from `searchProjects`
   * otherwise, and the empty list when the repository throws.
   */
  function Fetched(repository: ProjectRepositoryImpl, f: Fetch): (r: seq<ProjectData>)
    reads repository.dao
    ensures |r| <= PageSize
    ensures IsBlank(f.query) ==>
      var page := MapRows(repository.codec, Window(repository.dao.Ordered(), PageSize, Offset(f.page, PageSize)));
      r == if page.Ok? then page.value else []
    ensures !IsBlank(f.query) ==>
      var page := MapRows(repository.codec,
        Window(repository.dao.Matching(SearchPattern(f.query)), PageSize, Offset(f.page, PageSize)));
      r == if page.Ok? then page.value else []
    ensures IsBlank(f.query) && repository.AllProjects().Ok? ==>
      r == PageOf(repository.AllProjects().value, f.page)
    ensures !IsBlank(f.query) && repository.FoundProjects(f.query).Ok? ==>
      r == PageOf(repository.FoundProjects(f.query).value, f.page)
    ensures IsBlank(f.query) && repository.GetProjects(f.page, PageSize).Err? ==> r == []
    ensures !IsBlank(f.query) && repository.SearchProjects(f.query, f.page, PageSize).Err? ==> r == []
  {
    var result :=
      if IsBlank(f.query) then repository.GetProjects(f.page, PageSize)
      else repository.SearchProjects(f.query, f.page, PageSize);
    match result
    case Ok(projects) => projects
    case Err(_) => []
  }

  // ---------------------------------------------------------------------------
  // The view model
  // ---------------------------------------------------------------------------

  /** `WorksViewModel`: the state cell, the fetches in flight and the pending debounced search. */
  class WorksViewModel {
    const repository: ProjectRepositoryImpl
    /** `_state.value`. */
    var state: WorksState
    /** The fetches started and not yet returned, oldest first. */
    var inFlight: seq<Fetch>
    /** A debounced search is waiting out its delay (`searchJob` is neither finished nor cancelled). */
    var searchPending: bool

    /**
     * Each flag names the kind of the fetch started last, so it points at a fetch in flight:
     * a completion clears both flags, and nothing begins while `isLoadingMore` holds.
     */
    ghost predicate Valid()
      reads this
    {
      && state.currentPage >= 0
      && (forall k :: 0 <= k < |inFlight| ==> inFlight[k].page >= 1)
      && !(state.isLoading && state.isLoadingMore)
      && (state.isLoading ==> |inFlight| > 0 && inFlight[|inFlight| - 1].isNewSearch && state.currentPage == 1)
      && (state.isLoadingMore ==>
            |inFlight| > 0 && !inFlight[|inFlight| - 1].isNewSearch && inFlight[|inFlight| - 1].page == state.currentPage)
    }

    /** The record as `_state` is created, before `init` has started its load (its `isLoading` is already true). */
    ghost predicate Unstarted()
      reads this
    {
      state == Initial() && inFlight == []
    }

    /** `init`: a new-search load of page 1 starts straight away. */
    constructor (repository: ProjectRepositoryImpl)
      ensures Valid() && this.repository == repository
      ensures state == Begun(Initial(), true) && inFlight == [FetchOf(Initial(), true)]
      ensures !searchPending
    {
      this.repository := repository;
      state := Initial();
      inFlight := [];
      searchPending := false;
      new;
      var started := LoadProjects(true);
    }

    /** `loadProjects(isNewSearch)`, up to the fetch: the guard, then the flags and the target page. */
    method LoadProjects(isNewSearch: bool) returns (started: bool)
      requires Valid() || Unstarted()
      modifies this
      ensures Valid()
      ensures started <==> !Refuses(old(state), isNewSearch)
      ensures started ==> (state == Begun(old(state), isNewSearch)
        && inFlight == old(inFlight) + [FetchOf(old(state), isNewSearch)])
      ensures !started ==> state == old(state) && inFlight == old(inFlight)
      ensures searchPending == old(searchPending)
    {
      var current := state;
      if current.isLoadingMore || (!isNewSearch && !current.hasMorePages) {
        return false;
      }
      var pageToLoad := if isNewSearch then 1 else current.currentPage + 1;
      state := state.(isLoading := isNewSearch, isLoadingMore := !isNewSearch, currentPage := pageToLoad);
      inFlight := inFlight + [Fetch(isNewSearch, pageToLoad, state.searchQuery)];
      started := true;
    }

    /**
     * `onAction`: a new query is stored at once and replaces the pending debounced search;
     * reaching the end of the list asks for a load-more.
     */
    method OnAction(action: WorksAction)
      requires Valid()
      modifies this
      ensures Valid()
      ensures action.OnSearchQueryChange? ==>
        state == old(state).(searchQuery := action.query) && inFlight == old(inFlight) && searchPending
      ensures action.LoadMoreProjects? ==> searchPending == old(searchPending)
      ensures action.LoadMoreProjects? ==> if Refuses(old(state), false) then state == old(state) && inFlight == old(inFlight)
        else state == Begun(old(state), false) && inFlight == old(inFlight) + [FetchOf(old(state), false)]
    {
      match action
      case OnSearchQueryChange(query) =>
        state := state.(searchQuery := query);
        searchPending := true;
      case LoadMoreProjects =>
        var started := LoadProjects(false);
    }

    /** The pending search's delay runs out: it begins a new-search load of the query in the state now. */
    method SearchDelayElapsed() returns (started: bool)
      requires Valid()
      modifies this
      ensures Valid()
      ensures !searchPending
      ensures !old(searchPending) ==> !started && state == old(state) && inFlight == old(inFlight)
      ensures old(searchPending) ==> (started <==> !Refuses(old(state), true))
      ensures started ==> (state == Begun(old(state), true) && inFlight == old(inFlight) + [FetchOf(old(state), true)])
      ensures old(searchPending) && !started ==> state == old(state) && inFlight == old(inFlight)
    {
      if !searchPending {
        return false;
      }
      searchPending := false;
      started := LoadProjects(true);
    }

    /** The k-th fetch in flight returns: its page is merged into the state. */
    method Complete(k: nat) returns (result: seq<ProjectData>)
      requires Valid() && k < |inFlight|
      modifies this
      ensures Valid()
      ensures result == Fetched(repository, old(inFlight[k]))
      ensures state == Completed(old(state), old(inFlight[k]), result)
      ensures inFlight == old(inFlight[..k] + inFlight[k + 1..])
      ensures searchPending == old(searchPending)
    {
      var f := inFlight[k];
      result := Fetched(repository, f);
      var current := if f.isNewSearch then [] else state.projects;
      state := state.(isLoading := false, isLoadingMore := false, projects := current + result,
                      hasMorePages := |result| == PageSize);
      assert state == Completed(old(state), f, result);
      RemovedKeepsPages(inFlight, k);
      inFlight := inFlight[..k] + inFlight[k + 1..];
    }
  }

  /** Taking one fetch out of the list leaves every other fetch's page as it was. */
  lemma RemovedKeepsPages(fetches: seq<Fetch>, k: nat)
    requires k < |fetches| && forall j :: 0 <= j < |fetches| ==> fetches[j].page >= 1
    ensures var rest := fetches[..k] + fetches[k + 1..];
      forall j :: 0 <= j < |rest| ==> rest[j].page >= 1
  {
    var rest := fetches[..k] + fetches[k + 1..];
    forall j | 0 <= j < |rest|
      ensures rest[j].page >= 1
    {
      if j < k {
        assert rest[j] == fetches[j];
      } else {
        assert rest[j] == fetches[j + 1];
      }
    }
  }

  // ---------------------------------------------------------------------------
  // Uses of the view model, as the screen drives it
  // ---------------------------------------------------------------------------

  /** Twenty-five projects: the pages show 10, 20 and 25 of them, and then load-more is refused. */
  lemma TwentyFiveProjects(s: WorksState, all: seq<ProjectData>)
    requires !s.isLoadingMore && |all| == 25
    ensures var first := LoadRound(s, all, true);
      var second := LoadMoreRounds(first, all, 1);
      var third := LoadMoreRounds(first, all, 2);
      |first.projects| == 10 && first.hasMorePages
      && |second.projects| == 20 && second.hasMorePages
      && third.projects == all && !third.hasMorePages && Refuses(third, false)
  {
    SessionShowsPages(s, all, 0);
    SessionShowsPages(s, all, 1);
    SessionShowsEverything(s, all, 2);
  }

  /**
   * Typing "a", "ab", "abc" before the delay runs out: one search starts, for "abc"; a second
   * expiry finds no pending search.
   */
  method TypingBurst(repository: ProjectRepositoryImpl) returns (started: seq<bool>, fetches: seq<Fetch>)
    ensures started == [true, false]
    ensures fetches == [Fetch(true, 1, ""), Fetch(true, 1, "abc")]
  {
    var vm := new WorksViewModel(repository);
    vm.OnAction(OnSearchQueryChange("a"));
    vm.OnAction(OnSearchQueryChange("ab"));
    vm.OnAction(OnSearchQueryChange("abc"));
    var first := vm.SearchDelayElapsed();
    var second := vm.SearchDelayElapsed();
    started := [first, second];
    fetches := vm.inFlight;
  }

  /** Two load-more requests in a row after the first page: only one load-more starts, for page 2. */
  method ScrollTwice(repository: ProjectRepositoryImpl) returns (firstPage: seq<ProjectData>, fetches: seq<Fetch>)
    ensures firstPage == Fetched(repository, Fetch(true, 1, ""))
    ensures fetches == if |firstPage| == PageSize then [Fetch(false, 2, "")] else []
  {
    var vm := new WorksViewModel(repository);
    firstPage := vm.Complete(0);
    vm.OnAction(LoadMoreProjects);
    vm.OnAction(LoadMoreProjects);
    fetches := vm.inFlight;
  }

  /**
   * Scrolling to the end, one page at a time, with a blank query over a table that does not change:
   * the list ends up holding every project, and no page is left to load.
   */
  method ScrollToEnd(vm: WorksViewModel)
    requires vm.Valid() && vm.inFlight == [] && IsBlank(vm.state.searchQuery)
    requires vm.repository.AllProjects().Ok? && ShowsPages(vm.state, vm.repository.AllProjects().value)
    modifies vm
    ensures vm.Valid() && vm.inFlight == []
    ensures vm.state.projects == vm.repository.AllProjects().value && !vm.state.hasMorePages
  {
    ghost var all := vm.repository.AllProjects().value;
    FullPagesBound(vm.state.currentPage, |all|);
    while vm.state.hasMorePages
      invariant vm.Valid() && vm.inFlight == [] && IsBlank(vm.state.searchQuery)
      invariant ShowsPages(vm.state, all)
      invariant vm.state.hasMorePages ==> vm.state.currentPage < LastPage(|all|)
      decreases LastPage(|all|) - vm.state.currentPage
    {
      ghost var before := vm.state;
      FullPagesBound(before.currentPage, |all|);
      vm.OnAction(LoadMoreProjects);
      var page := vm.Complete(0);
      LoadMoreShowsNextPage(before, all);
      FullPagesBound(vm.state.currentPage, |all|);
    }
    SessionEndShowsAll(vm.state, all);
  }

  /** A list showing its pages with no page left to load shows all of it. */
  lemma SessionEndShowsAll(s: WorksState, all: seq<ProjectData>)
    requires ShowsPages(s, all) && !s.hasMorePages
    ensures s.projects == all
  {
  }
}
