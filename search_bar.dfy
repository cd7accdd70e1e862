/** The search box of components/search/SearchBar.tsx: the city
    suggestions, the guard that disables the submit button, and the
    handlers that pass a query on. Geolocation is given as its result: the
    position text, or nothing when it is unavailable. */
module SearchBox {
  import opened Base
  import opened Text
  import opened Domain

  /** The cities the box suggests from, in the order it lists them. */
  const Cities: seq<string> := [
    "New York, NY", "Los Angeles, CA", "Chicago, IL", "Houston, TX",
    "Phoenix, AZ", "Philadelphia, PA", "San Antonio, TX", "San Diego, CA",
    "Dallas, TX", "San Jose, CA", "Austin, TX", "Jacksonville, FL"]

  const MaxSuggestions := 5

  /** The listed cities whose lower-case name contains the lower-cased
      query, in list order. */
  function Matches(query: string): seq<string>
  {
    Filter(Cities, (c: string) => Contains(Lower(c), Lower(query)))
  }

  /** The suggestions shown for `query`: the first five matches, in city
      mode and for a query longer than two characters; none otherwise. */
  function Suggestions(mode: Mode, query: string): (r: seq<string>)
    ensures |r| <= MaxSuggestions
    ensures !(mode == City && |query| > 2) ==> r == []
  {
    if mode == City && |query| > 2 then
      var m := Matches(query);
      m[..Min(MaxSuggestions, |m|)]
    else []
  }

  /** Every suggestion is a listed city matching the query, and the
      suggestions keep the list order. */
  lemma SuggestionsMatch(mode: Mode, query: string, c: string)
    ensures c in Suggestions(mode, query) ==> c in Cities && Contains(Lower(c), Lower(query))
    ensures IsSubsequence(Suggestions(mode, query), Cities)
  {
    var p := (c: string) => Contains(Lower(c), Lower(query));
    FilterMembers(Cities, p, c);
    FilterSubsequence(Cities, p);
    if mode == City && |query| > 2 {
      SubsequencePrefix(Matches(query), Cities, Min(MaxSuggestions, |Matches(query)|));
    }
  }

  /** A matching city is left out only when five suggestions are already
      shown. */
  lemma SuggestionsCompleteUnlessFull(query: string, c: string)
    requires |query| > 2 && c in Cities && Contains(Lower(c), Lower(query))
    ensures c in Suggestions(City, query) || |Suggestions(City, query)| == MaxSuggestions
  {
    FilterMembers(Cities, (c: string) => Contains(Lower(c), Lower(query)), c);
    var m := Matches(query);
    assert Suggestions(City, query) == m[..Min(MaxSuggestions, |m|)];
    TakeCompleteUnlessFull(m, c, MaxSuggestions);
  }

  /** Taking at most `n` elements keeps `x` unless `n` elements are taken. */
  lemma TakeCompleteUnlessFull<T>(m: seq<T>, x: T, n: nat)
    requires x in m
    ensures x in m[..Min(n, |m|)] || |m[..Min(n, |m|)]| == n
  {
    if |m| <= n {
      assert m[..|m|] == m;
    }
  }

  /** The submit button is disabled while loading, and in city mode for a
      query shorter than two characters. */
  predicate SubmitDisabled(loading: bool, mode: Mode, query: string)
  {
    loading || (mode == City && |query| < 2)
  }

  /** The box's state. */
  class SearchBar {
    var mode: Mode
    var query: string
    var suggestions: seq<string>

    constructor(mode: Mode, initialValue: string)
      ensures this.mode == mode && query == initialValue && suggestions == []
    {
      this.mode := mode;
      query := initialValue;
      suggestions := [];
    }

    /** The input's `onChange`, and the effect that copies a new
        `initialValue` into the box. */
    method SetQuery(text: string)
      modifies this
      ensures query == text && mode == old(mode) && suggestions == old(suggestions)
    {
      query := text;
    }

    /** The effect that runs after a render in which `query` or `mode`
        changed. */
    method RefreshSuggestions()
      modifies this
      ensures suggestions == Suggestions(mode, query)
      ensures query == old(query) && mode == old(mode)
    {
      if mode == City && |query| > 2 {
        var filtered := Matches(query);
        suggestions := filtered[..Min(MaxSuggestions, |filtered|)];
      } else {
        suggestions := [];
      }
    }

    /** `handleSubmit`, reachable only through the enabled button: a city
        search passes the query on unchanged, a nearby search passes the
        position text when there is one. */
    method HandleSubmit(loading: bool, position: Option<string>) returns (searched: Option<string>)
      requires !SubmitDisabled(loading, mode, query)
      modifies this
      ensures mode == City ==> searched == Some(query)
      ensures mode == Nearby ==> searched == position
      ensures suggestions == [] && query == old(query) && mode == old(mode)
    {
      if mode == Nearby {
        searched := position;
      } else {
        searched := Some(query);
      }
      suggestions := [];
    }

    /** `handleSuggestionClick`: the suggestion becomes the query and is
        searched for as it is. */
    method HandleSuggestionClick(suggestion: string) returns (searched: string)
      modifies this
      ensures searched == suggestion && query == suggestion && suggestions == [] && mode == old(mode)
    {
      query := suggestion;
      searched := suggestion;
      suggestions := [];
    }
  }

  // ---------------------------------------------------------------------
  // The dropdown after a suggestion is clicked

  /** What the box shows: the query and the suggestions. */
  datatype View = View(query: string, suggestions: seq<string>)

  /** The suggestion effect after a render: it runs when the query changed
      since the previous render. */
  function AfterRender(mode: Mode, before: View, after: View): View
  {
    if after.query != before.query then after.(suggestions := Suggestions(mode, after.query)) else after
  }

  /** A click on a suggestion as written: the handler clears the
      suggestions, then the effect runs for the changed query. */
  function ClickAsWritten(mode: Mode, v: View, suggestion: string): View
  {
    AfterRender(mode, v, v.(query := suggestion, suggestions := []))
  }

  lemma CitiesAreLong(c: string)
    requires c in Cities
    ensures |c| > 2
  {
  }

  /** A listed city is suggested for its own name. */
  lemma CitySuggestsItself(c: string)
    requires c in Cities
    ensures Suggestions(City, c) != []
  {
    CitiesAreLong(c);
    assert OccursAt(Lower(c), Lower(c), 0);
    FilterMembers(Cities, (x: string) => Contains(Lower(x), Lower(c)), c);
  }

  /** As written, clicking a suggestion other than the typed text leaves
      the dropdown open: the effect refills it for the new query. */
  lemma ClickReopensSuggestions(v: View, suggestion: string)
    requires suggestion in Suggestions(City, v.query) && suggestion != v.query
    ensures ClickAsWritten(City, v, suggestion).suggestions != []
  {
    SuggestionsMatch(City, v.query, suggestion);
    CitySuggestsItself(suggestion);
  }

  /** Typing with the suggestions computed in the change handler. */
  function TypeCorrected(mode: Mode, v: View, text: string): View
  {
    View(text, Suggestions(mode, text))
  }

  /** A click with no effect tied to the query: the suggestions stay
      cleared. */
  function ClickCorrected(v: View, suggestion: string): (r: View)
    ensures r.query == suggestion && r.suggestions == []
  {
    v.(query := suggestion, suggestions := [])
  }

  /** Computing the suggestions in the change handler shows the same
      suggestions as the effect does for every change of the text. */
  lemma CorrectedTypingAgrees(mode: Mode, v: View, text: string)
    requires text != v.query
    ensures TypeCorrected(mode, v, text) == AfterRender(mode, v, v.(query := text))
  {
  }
}
