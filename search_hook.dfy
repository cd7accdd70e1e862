/** The search state of hooks/useSearch.ts: six state fields, the
    `performSearch` transitions (guard, start, success, failure) and
    `clearSearch`. The awaited `searchHotels` call is given as its outcome. */
module SearchHook {
  import opened Base
  import opened Domain

  /** The object `performSearch` receives: the mode, the typed text, the
      derived city and the filters. */
  datatype SearchQuery = SearchQuery(mode: Mode, query: string, city: Option<string>, filters: Filters)

  /** A snapshot of the hook's six state fields. */
  datatype SearchState = SearchState(
    query: string,
    filters: Filters,
    results: seq<HotelWithBars>,
    loading: bool,
    error: Option<string>,
    hasSearched: bool)

  const Initial := SearchState("", DefaultFilters, [], false, None, false)

  const SearchFailedMessage := "Failed to search hotels. Please try again."

  /** A city search with empty text is ignored. */
  predicate Skipped(request: SearchQuery)
  {
    request.query == "" && request.mode == City
  }

  /** `setLoading(true)`, `setError(null)`. */
  function Started(s: SearchState): SearchState
  {
    s.(loading := true, error := None)
  }

  /** The `try`/`catch`/`finally` after the call returns or throws. */
  function Finished(s: SearchState, outcome: Outcome<seq<HotelWithBars>>): SearchState
  {
    match outcome
    case Success(found) => s.(results := found, hasSearched := true, loading := false)
    case Failed => s.(error := Some(SearchFailedMessage), loading := false)
  }

  /** The state once `performSearch(request)` has completed. */
  function AfterSearch(s: SearchState, request: SearchQuery, outcome: Outcome<seq<HotelWithBars>>): SearchState
  {
    if Skipped(request) then s else Finished(Started(s), outcome)
  }

  /** `clearSearch`; `loading` is not touched. */
  function Cleared(s: SearchState): SearchState
  {
    s.(query := "", results := [], error := None, hasSearched := false, filters := DefaultFilters)
  }

  /** An empty city search changes nothing, whatever the call would have
      returned. */
  lemma SkippedSearchChangesNothing(s: SearchState, request: SearchQuery, outcome: Outcome<seq<HotelWithBars>>)
    requires request.mode == City && request.query == ""
    ensures AfterSearch(s, request, outcome) == s
  {
  }

  /** A search that runs shows loading and no error while it waits. */
  lemma StartShowsLoading(s: SearchState)
    ensures Started(s).loading && Started(s).error.None?
    ensures Started(s).results == s.results && Started(s).hasSearched == s.hasSearched
  {
  }

  /** A successful search shows exactly the hotels returned, marks that a
      search has happened, clears the error and stops loading; the query
      and the filters stay. */
  lemma SuccessfulSearch(s: SearchState, request: SearchQuery, found: seq<HotelWithBars>)
    requires !Skipped(request)
    ensures var t := AfterSearch(s, request, Success(found));
      t.results == found && t.hasSearched && !t.loading && t.error.None?
      && t.query == s.query && t.filters == s.filters
  {
  }

  /** A failed search shows the fixed message and keeps the previous
      results and `hasSearched`. */
  lemma FailedSearch(s: SearchState, request: SearchQuery)
    requires !Skipped(request)
    ensures var t := AfterSearch(s, request, Failed);
      t.error == Some(SearchFailedMessage) && !t.loading
      && t.results == s.results && t.hasSearched == s.hasSearched
      && t.query == s.query && t.filters == s.filters
  {
  }

  /** Loading and an error are never shown together. */
  predicate Consistent(s: SearchState)
  {
    s.loading ==> s.error.None?
  }

  /** Every transition keeps `Consistent`, starting from the initial
      state. */
  lemma TransitionsKeepConsistent(s: SearchState, request: SearchQuery, outcome: Outcome<seq<HotelWithBars>>)
    requires Consistent(s)
    ensures Consistent(Initial)
    ensures Consistent(Started(s))
    ensures Consistent(Finished(s, outcome))
    ensures Consistent(AfterSearch(s, request, outcome))
    ensures Consistent(Cleared(s))
  {
  }

  /** Clearing gives the initial state, apart from a search still loading,
      and clearing twice is clearing once. */
  lemma ClearedIsInitial(s: SearchState)
    ensures Cleared(s).(loading := false) == Initial
    ensures Cleared(Cleared(s)) == Cleared(s)
  {
  }

  /** The hook's state. */
  class Search {
    var query: string
    var filters: Filters
    var results: seq<HotelWithBars>
    var loading: bool
    var error: Option<string>
    var hasSearched: bool

    function State(): SearchState
      reads this
    {
      SearchState(query, filters, results, loading, error, hasSearched)
    }

    constructor()
      ensures State() == Initial
    {
      query := "";
      filters := DefaultFilters;
      results := [];
      loading := false;
      error := None;
      hasSearched := false;
    }

    method SetQuery(q: string)
      modifies this
      ensures State() == old(State()).(query := q)
    {
      query := q;
    }

    method SetFilters(f: Filters)
      modifies this
      ensures State() == old(State()).(filters := f)
    {
      filters := f;
    }

    /** The part of `performSearch` before the await; `started` is false
        when the guard returned early. */
    method BeginSearch(request: SearchQuery) returns (started: bool)
      modifies this
      ensures started == !Skipped(request)
      ensures started ==> State() == Started(old(State()))
      ensures !started ==> State() == old(State())
    {
      if request.query == "" && request.mode == City {
        return false;
      }
      loading := true;
      error := None;
      started := true;
    }

    /** The part of `performSearch` after the await. */
    method CompleteSearch(outcome: Outcome<seq<HotelWithBars>>)
      modifies this
      ensures State() == Finished(old(State()), outcome)
    {
      match outcome {
        case Success(found) =>
          results := found;
          hasSearched := true;
        case Failed =>
          error := Some(SearchFailedMessage);
      }
      loading := false;
    }

    /** `performSearch(request)`, the call returning `outcome`. */
    method PerformSearch(request: SearchQuery, outcome: Outcome<seq<HotelWithBars>>)
      modifies this
      ensures State() == AfterSearch(old(State()), request, outcome)
    {
      var started := BeginSearch(request);
      if started {
        CompleteSearch(outcome);
      }
    }

    method ClearSearch()
      modifies this
      ensures State() == Cleared(old(State()))
    {
      query := "";
      results := [];
      error := None;
      hasSearched := false;
      filters := DefaultFilters;
    }
  }
}
