/** The home page of app/page.tsx: the search mode it keeps, the request it
    builds from the search box's text, and how a search or a change of the
    filters drives the search state of hooks/useSearch.ts. */
module HomePage {
  import opened Base
  import opened Text
  import opened Domain
  import opened SearchHook
  import SearchBox

  /** The city a request names: in city mode the trimmed text before the
      first comma of the query, in nearby mode none. */
  function CityOf(mode: Mode, query: string): (r: Option<string>)
    ensures r.Some? <==> mode == City
  {
    if mode == City then Some(Trim(BeforeComma(query))) else None
  }

  /** Only white space, if anything, surrounds `c` in `b`. */
  ghost predicate PaddedBy(b: string, c: string)
  {
    exists k :: OccursAt(b, c, k)
      && (forall i :: 0 <= i < k ==> IsSpace(b[i]))
      && (forall i :: k + |c| <= i < |b| ==> IsSpace(b[i]))
  }

  /** At most one text with no white space at either end is padded by
      white space to `b`, so the clauses of `CityOfShape` determine the
      city. */
  lemma PaddedByUnique(b: string, c1: string, c2: string)
    requires PaddedBy(b, c1) && (c1 == [] || (!IsSpace(c1[0]) && !IsSpace(c1[|c1| - 1])))
    requires PaddedBy(b, c2) && (c2 == [] || (!IsSpace(c2[0]) && !IsSpace(c2[|c2| - 1])))
    ensures c1 == c2
  {
    var k1 := PaddingAt(b, c1);
    var k2 := PaddingAt(b, c2);
    PaddedStart(b, c1, k1);
    PaddedStart(b, c2, k2);
    if c1 != [] && c2 != [] {
      SameEnds(b, c1, k1, c2, k2);
      assert c1 == b[k1..k1 + |c1|];
    }
  }

  /** Where `c` sits in `b`. */
  lemma PaddingAt(b: string, c: string) returns (k: nat)
    requires PaddedBy(b, c)
    ensures OccursAt(b, c, k)
    ensures forall i :: 0 <= i < k ==> IsSpace(b[i])
    ensures forall i :: k + |c| <= i < |b| ==> IsSpace(b[i])
  {
    k :| OccursAt(b, c, k) && (forall i :: 0 <= i < k ==> IsSpace(b[i]))
      && (forall i :: k + |c| <= i < |b| ==> IsSpace(b[i]));
  }

  /** Only white space pads the empty text; a non-empty one starts with
      non-white-space at `k`. */
  lemma PaddedStart(b: string, c: string, k: nat)
    requires OccursAt(b, c, k) && (c == [] || !IsSpace(c[0]))
    requires forall i :: 0 <= i < k ==> IsSpace(b[i])
    requires forall i :: k + |c| <= i < |b| ==> IsSpace(b[i])
    ensures c == [] ==> forall i :: 0 <= i < |b| ==> IsSpace(b[i])
    ensures c != [] ==> k < |b| && !IsSpace(b[k])
  {
    if c != [] {
      assert b[k] == c[0];
    }
  }

  /** Two pieces of `b` that begin and end with non-white-space and have
      only white space around them begin and end at the same places. */
  lemma SameEnds(b: string, c1: string, k1: nat, c2: string, k2: nat)
    requires c1 != [] && OccursAt(b, c1, k1) && !IsSpace(c1[0]) && !IsSpace(c1[|c1| - 1])
    requires c2 != [] && OccursAt(b, c2, k2) && !IsSpace(c2[0]) && !IsSpace(c2[|c2| - 1])
    requires forall i :: 0 <= i < k1 ==> IsSpace(b[i])
    requires forall i :: k1 + |c1| <= i < |b| ==> IsSpace(b[i])
    requires forall i :: 0 <= i < k2 ==> IsSpace(b[i])
    requires forall i :: k2 + |c2| <= i < |b| ==> IsSpace(b[i])
    ensures k1 == k2 && |c1| == |c2|
  {
    assert b[k1] == c1[0] && b[k2] == c2[0];
    assert b[k1 + |c1| - 1] == c1[|c1| - 1] && b[k2 + |c2| - 1] == c2[|c2| - 1];
  }

  lemma PaddedAt(b: string, c: string, k: nat)
    requires OccursAt(b, c, k)
    requires forall i :: 0 <= i < k ==> IsSpace(b[i])
    requires forall i :: k + |c| <= i < |b| ==> IsSpace(b[i])
    ensures PaddedBy(b, c)
  {
  }

  /** The city is the query's text before its first comma with the white
      space around it removed: it has no white space at either end and
      only white space surrounds it there. A query without a comma gives
      the whole query, trimmed. */
  lemma CityOfShape(query: string)
    ensures var c := CityOf(City, query).value;
      ',' !in c
      && (c == [] || (!IsSpace(c[0]) && !IsSpace(c[|c| - 1])))
      && PaddedBy(BeforeComma(query), c) && Contains(query, c)
      && (',' !in query ==> c == Trim(query))
  {
    var c := CityOf(City, query).value;
    assert c == Trim(BeforeComma(query));
    var k := CityInQuery(query);
    assert Contains(query, c) by {
      assert OccursAt(query, c, k);
    }
    PaddedAt(BeforeComma(query), c, k);
    if ',' !in query {
      WholeBeforeComma(query);
    }
  }

  lemma WholeBeforeComma(query: string)
    requires ',' !in query
    ensures BeforeComma(query) == query
  {
    var b := BeforeComma(query);
    if |b| < |query| {
      assert false;
    }
  }

  /** The city is the trimmed, comma-free text before the query's first
      comma, found at index `k` of both, with only white space around it. */
  lemma CityInQuery(query: string) returns (k: nat)
    ensures var b := BeforeComma(query); var c := Trim(b);
      ',' !in c && OccursAt(query, c, k) && OccursAt(b, c, k)
      && (forall i :: 0 <= i < k ==> IsSpace(b[i]))
      && (forall i :: k + |c| <= i < |b| ==> IsSpace(b[i]))
      && (c == [] || (!IsSpace(c[0]) && !IsSpace(c[|c| - 1])))
  {
    var b := BeforeComma(query);
    k := TrimSlice(b);
    assert b == query[..|b|];
    SliceOfPrefix(query, b, k, Trim(b));
  }

  /** Where the trimmed text sits in the untrimmed one, with only white
      space before and after it. */
  lemma TrimSlice(s: string) returns (k: nat)
    ensures k + |Trim(s)| <= |s|
    ensures forall i :: 0 <= i < |Trim(s)| ==> Trim(s)[i] == s[k + i]
    ensures forall i :: 0 <= i < k ==> IsSpace(s[i])
    ensures forall i :: k + |Trim(s)| <= i < |s| ==> IsSpace(s[i])
    ensures Trim(s) == [] || (!IsSpace(Trim(s)[0]) && !IsSpace(Trim(s)[|Trim(s)| - 1]))
  {
    var t := TrimStart(s);
    k := |s| - |t|;
    var c := TrimEnd(t);
    assert Trim(s) == c;
    TrimStartStripsSpace(s);
    TrimEndStripsSpace(t);
    SpaceAround(s, t, c, k);
  }

  /** `c` is a prefix of the suffix `t` of `s` at `k`, white space only
      before `t` and after `c` in it: where `c` sits in `s`. */
  lemma SpaceAround(s: string, t: string, c: string, k: nat)
    requires k + |t| == |s| && t == s[k..] && |c| <= |t| && c == t[..|c|]
    requires forall i :: 0 <= i < k ==> IsSpace(s[i])
    requires forall i :: |c| <= i < |t| ==> IsSpace(t[i])
    requires c == [] || (!IsSpace(c[0]) && !IsSpace(c[|c| - 1]))
    ensures k + |c| <= |s|
    ensures forall i :: 0 <= i < |c| ==> c[i] == s[k + i]
    ensures forall i :: 0 <= i < k ==> IsSpace(s[i])
    ensures forall i :: k + |c| <= i < |s| ==> IsSpace(s[i])
  {
    forall i | 0 <= i < |c| ensures c[i] == s[k + i] {
      assert c[i] == t[i];
    }
    forall i | k + |c| <= i < |s| ensures IsSpace(s[i]) {
      assert s[i] == t[i - k];
    }
  }

  /** A slice of a comma-free prefix of `query` occurs at the same index
      in the prefix and in `query`. */
  lemma SliceOfPrefix(query: string, b: string, k: nat, c: string)
    requires |b| <= |query| && b == query[..|b|] && ',' !in b
    requires k + |c| <= |b| && forall i :: 0 <= i < |c| ==> c[i] == b[k + i]
    ensures ',' !in c && OccursAt(query, c, k) && OccursAt(b, c, k)
  {
    assert b[k..k + |c|] == c;
    assert query[k..k + |c|] == c;
    forall i | 0 <= i < |c| ensures c[i] != ',' {
      assert c[i] == b[k + i];
    }
  }

  /** The request the page passes to `performSearch`. */
  function RequestFor(mode: Mode, query: string, filters: Filters): (r: SearchQuery)
    ensures r.mode == mode && r.query == query && r.filters == filters
    ensures r.city == CityOf(mode, query)
  {
    SearchQuery(mode, query, CityOf(mode, query), filters)
  }

  /** The page's own mode and the search hook's state. */
  datatype PageState = PageState(searchMode: Mode, search: SearchState)

  const InitialPage := PageState(Nearby, Initial)

  /** `handleSearch(searchQuery)`: store the text, then search for it with
      the current mode and filters. */
  function AfterHandleSearch(p: PageState, searchQuery: string, outcome: Outcome<seq<HotelWithBars>>): PageState
  {
    var stored := p.search.(query := searchQuery);
    p.(search := AfterSearch(stored, RequestFor(p.searchMode, searchQuery, p.search.filters), outcome))
  }

  /** `handleFiltersChange(newFilters)`: store the filters, and search
      again with the stored text only after a first search. */
  function AfterFiltersChange(p: PageState, newFilters: Filters, outcome: Outcome<seq<HotelWithBars>>): PageState
  {
    var stored := p.search.(filters := newFilters);
    if p.search.hasSearched then
      p.(search := AfterSearch(stored, RequestFor(p.searchMode, p.search.query, newFilters), outcome))
    else p.(search := stored)
  }

  /** A search stores its text and keeps the mode and the filters; unless it
      is an empty city search, it shows the outcome. */
  lemma HandleSearchStoresQuery(p: PageState, searchQuery: string, outcome: Outcome<seq<HotelWithBars>>)
    ensures var t := AfterHandleSearch(p, searchQuery, outcome);
      t.search.query == searchQuery && t.search.filters == p.search.filters
      && t.searchMode == p.searchMode
      && (p.searchMode == City && searchQuery == "" ==> t.search.loading == p.search.loading)
      && (!(p.searchMode == City && searchQuery == "") ==> !t.search.loading)
      && (outcome.Success? && !(p.searchMode == City && searchQuery == "") ==>
            t.search.results == outcome.value && t.search.hasSearched)
      && (outcome.Failed? && !(p.searchMode == City && searchQuery == "") ==>
            t.search.error == Some(SearchFailedMessage) && t.search.results == p.search.results)
  {
  }

  /** An empty city search still stores the empty text, and changes nothing
      else. */
  lemma EmptyCitySearchOnlyStoresText(p: PageState, outcome: Outcome<seq<HotelWithBars>>)
    requires p.searchMode == City
    ensures AfterHandleSearch(p, "", outcome) == p.(search := p.search.(query := ""))
  {
  }

  /** New filters are always stored; before the first search nothing else
      changes, after it the stored text is searched for again with them. */
  lemma FiltersChangeStoresFilters(p: PageState, newFilters: Filters, outcome: Outcome<seq<HotelWithBars>>)
    ensures var t := AfterFiltersChange(p, newFilters, outcome);
      t.search.filters == newFilters && t.search.query == p.search.query && t.searchMode == p.searchMode
      && (!p.search.hasSearched ==> t.search == p.search.(filters := newFilters))
      && (p.search.hasSearched ==>
            t.search == AfterSearch(p.search.(filters := newFilters), RequestFor(p.searchMode, p.search.query, newFilters), outcome))
  {
  }

  /** A city search the search box lets through, by its enabled button or
      by a suggestion, is never dropped by the hook's guard. */
  lemma SearchBoxQueriesAreSearched(loading: bool, query: string, suggestion: string, filters: Filters)
    ensures !SearchBox.SubmitDisabled(loading, City, query) ==> !Skipped(RequestFor(City, query, filters))
    ensures suggestion in SearchBox.Suggestions(City, query) ==> !Skipped(RequestFor(City, suggestion, filters))
  {
    if suggestion in SearchBox.Suggestions(City, query) {
      SearchBox.SuggestionsMatch(City, query, suggestion);
      SearchBox.CitiesAreLong(suggestion);
    }
  }

  /** The page's state. */
  class Page {
    var searchMode: Mode
    const search: Search

    function State(): PageState
      reads this, search
    {
      PageState(searchMode, search.State())
    }

    constructor()
      ensures fresh(search) && State() == InitialPage
    {
      searchMode := Nearby;
      search := new Search();
    }

    /** `handleSearchModeChange`. */
    method HandleSearchModeChange(mode: Mode)
      modifies this
      ensures searchMode == mode && unchanged(search)
    {
      searchMode := mode;
    }

    /** `handleSearch(searchQuery)`, the search returning `outcome`. */
    method HandleSearch(searchQuery: string, outcome: Outcome<seq<HotelWithBars>>) returns (request: SearchQuery)
      modifies search
      ensures request == RequestFor(searchMode, searchQuery, old(search.filters))
      ensures State() == AfterHandleSearch(old(State()), searchQuery, outcome)
    {
      search.SetQuery(searchQuery);
      var city := if searchMode == City then Some(Trim(BeforeComma(searchQuery))) else None;
      request := SearchQuery(searchMode, searchQuery, city, search.filters);
      search.PerformSearch(request, outcome);
    }

    /** `handleFiltersChange(newFilters)`; `request` is the search it runs,
        if any. */
    method HandleFiltersChange(newFilters: Filters, outcome: Outcome<seq<HotelWithBars>>) returns (request: Option<SearchQuery>)
      modifies search
      ensures request.Some? <==> old(search.hasSearched)
      ensures request.Some? ==> request.value == RequestFor(searchMode, old(search.query), newFilters)
      ensures State() == AfterFiltersChange(old(State()), newFilters, outcome)
    {
      var searched := search.hasSearched;
      var query := search.query;
      search.SetFilters(newFilters);
      if searched {
        var city := if searchMode == City then Some(Trim(BeforeComma(query))) else None;
        var r := SearchQuery(searchMode, query, city, newFilters);
        search.PerformSearch(r, outcome);
        request := Some(r);
      } else {
        request := None;
      }
    }
  }
}
