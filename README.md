# Hotel bar finder: search and schedule logic in Dafny

A model of the search and schedule logic of a hotel-bar finder web application (Next.js, TypeScript). Users search for hotels that have bars, either by city text or near their own position. The model covers:

- **lib/utils.ts**: the time, schedule and text helpers. It covers `formatTime`, `isBarOpen`, `getBarStatus`, `getHappyHourStatus`, `isOpenNow`, `formatPhoneNumber`, `generateSlug` and `truncateText`. These live in modules `Schedule` and `Formatting`.
- **app/api/search/route.ts**: the `GET` handler, in module `SearchRoute`. It covers:
  - parsing the query parameters and their defaults;
  - the 400 answer for a city search without text;
  - mapping the text to one of three cities;
  - the hotel query and the bars query;
  - the hotel/bar join and the distance attached in nearby mode;
  - the comparator sort, and the 500 answer.

  The in-place stable sort that `Array.prototype.sort` performs lives in module `Sorting`.
- **hooks/useLocalStorage.ts**: the stored value with its `setValue`, the favourite hotels and the recent searches, in module `LocalStorage`. These are classes whose methods reassign the stored list.
- **hooks/useSearch.ts**: the six state fields of the search hook, `performSearch` and `clearSearch`, in module `SearchHook`. There is a class for the state and pure transition functions on a snapshot of it.
- **components/search/SearchFilters.tsx**: `toggleFilter`, `updateBarType`, `updateSortBy` and the offered options, in module `FilterPanel`.
- **components/search/SearchBar.tsx**: the city suggestions, the submit button's enabled state, `handleSubmit` and `handleSuggestionClick`, in module `SearchBox`.
- **app/page.tsx**: the home page's search mode, `handleSearch` (with its `city` derivation) and `handleFiltersChange`, in module `HomePage`.

Three shared modules support these:

- `Base`: `Option`, `Outcome`, counting, filtering and subsequences.
- `Text`: JavaScript's `\s` white space, ASCII lower-casing, `includes`, `trim`, `split(',')[0]` and decimal text.
- `Domain`: the database records, the `SearchFilters` record, clock times, and the weekday and minute of day read from `new Date()`.

The inputs the code reads from outside are parameters of the model:

- The current time is an `Instant` (weekday, minute of day).
- The two database queries are the functions `hotelsFor` and `barsFor`, which return rows or a failure.
- The great-circle distance is the function `distanceTo`.
- An awaited `searchHotels` call is given as its `Outcome`.
- The browser position is an optional coordinate string.

The code is modelled as written, quirks included:

- The route parses the six toggle filters, `barType` and `radius`, and then never uses them.
- `isOpenNow` includes the closing minute and has no overnight handling. `isBarOpen` consults only today's entry.
- The happy-hour status is shown all day.
- A failed bars query lists every hotel with no bars.
- A click on a city suggestion re-opens the suggestion list (see Findings).

## Model

| member | source | states |
|---|---|---|
| Schedule.FormatTime | lib/utils.ts:15-20 | the text is 7 or 8 characters, an hour, a colon, two minute digits, a space and a two-letter suffix |
| Schedule.FormatTimeReadsBack | lib/utils.ts:15-20 | the displayed hour has no leading zero, reads 1..12 and agrees with the hour of day modulo 12; the minutes are two digits equal to the minute; the suffix is "AM" exactly before noon and "PM" exactly from noon |
| Schedule.FormatTimeInjective | lib/utils.ts:15-20 | two different times of day never display alike |
| Schedule.IsBarOpen | lib/utils.ts:81-102 | the day-shifting comparison decides exactly `OpenAt`: today's entry exists and the minute lies in [open, close), read as wrapping past midnight when close < open |
| Schedule.ClosedWithoutTodaysEntry | lib/utils.ts:82-89 | without hours, or without an entry for today, the bar is closed |
| Schedule.SameOpenAndCloseNeverOpen | lib/utils.ts:94-101 | an entry whose open and close coincide is never open |
| Schedule.YesterdayNotConsulted | lib/utils.ts:85-89 | changing yesterday's entry, even one running past midnight, never changes today's answer |
| Schedule.OvernightEntryOpenEarly | lib/utils.ts:97-101 | with today's entry running past midnight, a minute before its close counts as open |
| Schedule.GetBarStatus | lib/utils.ts:104-129 | `isOpen` is `OpenAt`; a closing time is given exactly when open; the four messages are tied to their cases, with the formatted close or open time |
| Schedule.GetHappyHourStatus | lib/utils.ts:131-143 | no status exactly when there is no happy hour or today is not listed; otherwise "Happy Hour start-end" with both times formatted |
| Schedule.HappyHourIgnoresTimeOfDay | lib/utils.ts:131-143 | the status depends only on the weekday, never on the time of day |
| Schedule.HundredsFormOrder | lib/utils.ts:52-54 | comparing `hours*100+minutes` orders times as minutes of the day do |
| Schedule.IsOpenNow | lib/utils.ts:50-57 | open exactly when open <= now <= close in minutes of the day |
| Schedule.IsOpenNowAgainstWithinHours | lib/utils.ts:50-57 | `isOpenNow` is never open on an overnight entry, and otherwise differs from `isBarOpen` only at the closing minute |
| Formatting.FormatPhoneNumber | lib/utils.ts:59-66 | with exactly ten digits, "(ddd) ddd-dddd" of those digits in order; otherwise the input unchanged |
| Formatting.PhoneDigits | lib/utils.ts:61-63 | the formatted number holds exactly the ten digits it was built from |
| Formatting.FormatPhoneNumberIdempotent | lib/utils.ts:59-66 | formatting a formatted number changes nothing |
| Formatting.GenerateSlug | lib/utils.ts:68-74 | the result is a slug: lower-case word characters and single hyphens, no hyphen at either end; it keeps every letter and digit of the lower-cased text, in order |
| Formatting.CollapseKeepsAlnum | lib/utils.ts:72 | collapsing separator runs keeps the letters and digits, in order |
| Formatting.GenerateSlugIdempotent | lib/utils.ts:68-74 | slugifying a slug changes nothing |
| Formatting.SlugUnchanged | lib/utils.ts:68-74 | every slug is its own slug |
| Formatting.DropLastWord | lib/utils.ts:78 | removing `\s+\S*$` keeps a prefix: the text itself when it has no white space; otherwise it cuts at white space before the last word and leaves no trailing white space |
| Formatting.TruncateText | lib/utils.ts:76-79 | text within the limit is returned unchanged; longer text is its first `maxLength` characters cut back at a word boundary, dropping only the last run of white space and the word after it (nothing when the cut has no white space), followed by "..." |
| Formatting.CutAtWordBoundaryUnique | lib/utils.ts:76-79 | at most one kept prefix meets the word-boundary condition, so the contract of `TruncateText` determines its result |
| SearchRoute.OrElse | app/api/search/route.ts:9 | `v || fallback`: the value when present and non-empty, else the fallback |
| SearchRoute.DigitPrefix | app/api/search/route.ts:12 | the longest run of digits starting the text |
| SearchRoute.ParseIntOfNatText | app/api/search/route.ts:12 | `parseInt` reads back the decimal text of every natural number |
| SearchRoute.ParseRequest | app/api/search/route.ts:7-24 | `q`, `lat` and `lng` are read as given; a non-empty `mode`, `sortBy` or `barType` is used as given, and an absent or empty one gives "city", "distance" or "" (each default exactly in that case); the radius is `parseInt` of the given text, or 50 when it is absent or empty |
| SearchRoute.EmptyRequestDefaults | app/api/search/route.ts:7-24 | no parameters read as a city search, radius 50 and the default filters |
| SearchRoute.ToggleOnlyForTrue | app/api/search/route.ts:15-21 | each toggle is on exactly when its parameter is the text "true" |
| SearchRoute.EmptyValueMeansDefault | app/api/search/route.ts:9-23 | an empty `mode`, `radius`, `barType` or `sortBy` reads the same as an absent one |
| SearchRoute.CityRestriction | app/api/search/route.ts:42-51 | a restriction is one of the three cities, and only for a city search with non-empty text |
| SearchRoute.CityRestrictionIgnoresCase | app/api/search/route.ts:43-50 | the city mapping ignores letter case |
| SearchRoute.CityRestrictionCases | app/api/search/route.ts:42-51 | no restriction outside a city search with text; otherwise, on the lower-cased text, New York when it contains "new york", else Los Angeles when it contains "los angeles", else Chicago when it contains "chicago", else none |
| SearchRoute.CityPriority | app/api/search/route.ts:44-45 | text containing "new york" maps to New York whatever else it names |
| SearchRoute.BuildHotelQuery | app/api/search/route.ts:36-53 | the query built by reassignment asks for hotels with a bar, in the restricted city if any, 50 rows at most |
| SearchRoute.Join | app/api/search/route.ts:77-80 | one entry per fetched hotel, in the same order, each with that hotel and no distance yet |
| SearchRoute.JoinAttachesMatchingBars | app/api/search/route.ts:77-80 | each hotel keeps its place and gets exactly the bars with its id, each as often as fetched and in fetched order, and no distance |
| SearchRoute.Locate | app/api/search/route.ts:88-96 | a hotel with both coordinates gets the distance from the user; any other hotel is unchanged |
| SearchRoute.AttachDistances | app/api/search/route.ts:87-97 | the in-place loop leaves every hotel located |
| SearchRoute.LexCompare | app/api/search/route.ts:108 | a three-way comparison that is zero exactly on equal names |
| SearchRoute.CompareByOrders | app/api/search/route.ts:101-112 | by distance a hotel sorts first exactly when it is nearer, by rating exactly when it rates higher, by name exactly when its name compares lower; ties exactly on equal keys; any other key ties every pair |
| SearchRoute.CompareByConsistent | app/api/search/route.ts:101-112 | every comparator the route can use is antisymmetric and transitive, so the sort's outcome is determined |
| SearchRoute.Respond | app/api/search/route.ts:6-127 | an error exactly when a city search lacks text or the hotel query fails, 400 exactly in the first case; a success counts its hotels, one per fetched hotel |
| SearchRoute.HandleGet | app/api/search/route.ts:6-127 | the handler answers exactly `Respond`: 400, 500, or the sorted listing with its count |
| SearchRoute.SortedListing | app/api/search/route.ts:60-112 | bars fetched, joined, located and sorted in place give the stable sort of the located join |
| SearchRoute.CitySearchNeedsQuery | app/api/search/route.ts:26-31 | a city search without text is answered 400 whatever the database holds |
| SearchRoute.FailedHotelQueryIs500 | app/api/search/route.ts:53-57 | when the hotel query the request issues fails, the answer is 500 "Failed to search hotels" |
| SearchRoute.ResponseIsReorderedJoin | app/api/search/route.ts:77-118 | a successful answer lists every joined hotel once, only reordered, and counts them |
| SearchRoute.FailedBarsQueryGivesNoBars | app/api/search/route.ts:63-74 | when the bars query for the fetched hotels' ids fails, every listed hotel has no bars and the answer is still a success |
| SearchRoute.DistanceOnlyWhenLocated | app/api/search/route.ts:83-97 | a listed hotel has a distance exactly in a nearby search with both coordinates, for a hotel with both of its own |
| SearchRoute.ResponseOrder | app/api/search/route.ts:101-112 | distance ascending, rating descending (missing counts as 0), name ascending, and the fetched order for any other key |
| SearchRoute.ResponseSortIsStable | app/api/search/route.ts:101-112 | hotels the comparator cannot tell apart keep their fetched order |
| SearchRoute.FiltersNotApplied | app/api/search/route.ts:12-24 | setting any toggle, `barType` or `radius` never changes the answer |
| Sorting.SortInPlace | app/api/search/route.ts:101-112 | the in-place insertion sort leaves the array equal to the reference stable sort of its old contents |
| Sorting.SortPermutes | app/api/search/route.ts:101-112 | the sort neither adds nor drops an element |
| Sorting.SortSorted | app/api/search/route.ts:101-112 | with a consistent comparator the result is in order |
| Sorting.SortStable | app/api/search/route.ts:101-112 | equivalent elements keep their relative order |
| Sorting.SortKeepsOrderWhenAllEquivalent | app/api/search/route.ts:109-110 | a comparator that always returns 0 leaves the list as it was |
| LocalStorage.Store.constructor | hooks/useLocalStorage.ts:5-6 | the store starts at the initial value |
| LocalStorage.Store.SetValue | hooks/useLocalStorage.ts:19-23 | a function argument is applied to the stored value; any other argument replaces it |
| LocalStorage.AddedFavoriteShape | hooks/useLocalStorage.ts:35-37 | after adding, the id is last and occurs once, no other id is added or removed, and the others keep their order |
| LocalStorage.AddFavoriteIdempotent | hooks/useLocalStorage.ts:35-37 | adding a favourite twice is adding it once |
| LocalStorage.Favorites.AddFavorite | hooks/useLocalStorage.ts:35-37 | the stored list becomes the list with the id moved or added to the end |
| LocalStorage.RemovedFavorite | hooks/useLocalStorage.ts:39-41 | the id is gone, every other id keeps its count, and the order is kept |
| LocalStorage.Favorites.RemoveFavorite | hooks/useLocalStorage.ts:39-41 | the stored list becomes the list without the id |
| LocalStorage.RemoveUndoesAdd | hooks/useLocalStorage.ts:35-41 | removing a just-added id is the same as removing it from the list before |
| LocalStorage.FavoritesStayDistinct | hooks/useLocalStorage.ts:35-41 | a list without repeats keeps that property under both updates |
| LocalStorage.Favorites.IsFavorite | hooks/useLocalStorage.ts:43-45 | true exactly when the id occurs in the stored list |
| LocalStorage.AddedRecentSearch | hooks/useLocalStorage.ts:58-63 | the query first, then the earlier searches without it, ten entries at most |
| LocalStorage.RecentSearchOnce | hooks/useLocalStorage.ts:58-63 | the query occurs once and every other entry was an earlier search |
| LocalStorage.RepeatedSearchIdempotent | hooks/useLocalStorage.ts:58-63 | searching again for the latest search changes nothing |
| LocalStorage.RecentSearches.AddRecentSearch | hooks/useLocalStorage.ts:58-63 | the stored list becomes the list with the query added |
| LocalStorage.RecentSearches.ClearRecentSearches | hooks/useLocalStorage.ts:65-67 | the stored list becomes empty |
| SearchHook.Search.constructor | hooks/useSearch.ts:8-22 | empty query, default filters, no results, not loading, no error, not searched |
| SearchHook.Search.SetQuery | hooks/useSearch.ts:8 | only the query changes |
| SearchHook.Search.SetFilters | hooks/useSearch.ts:9 | only the filters change |
| SearchHook.Search.BeginSearch | hooks/useSearch.ts:27-30 | an empty city search returns early with nothing changed; any other search starts loading and clears the error |
| SearchHook.Search.CompleteSearch | hooks/useSearch.ts:32-41 | success stores the results and marks a search; failure stores the fixed message; loading stops either way |
| SearchHook.Search.PerformSearch | hooks/useSearch.ts:24-42 | the state becomes `AfterSearch` of the old state |
| SearchHook.Search.ClearSearch | hooks/useSearch.ts:44-59 | the state becomes `Cleared` of the old state |
| SearchHook.SkippedSearchChangesNothing | hooks/useSearch.ts:27 | an empty city search changes nothing, whatever the call would return |
| SearchHook.StartShowsLoading | hooks/useSearch.ts:29-30 | a started search shows loading and no error, and keeps the results |
| SearchHook.SuccessfulSearch | hooks/useSearch.ts:32-41 | success shows exactly the returned hotels, marks a search, shows no error and stops loading, keeping the query and the filters |
| SearchHook.FailedSearch | hooks/useSearch.ts:36-41 | failure shows the fixed message and keeps the previous results and `hasSearched` |
| SearchHook.TransitionsKeepConsistent | hooks/useSearch.ts:24-59 | loading and an error are never shown together, from the initial state on, under every transition |
| SearchHook.ClearedIsInitial | hooks/useSearch.ts:44-59 | clearing gives the initial state apart from `loading`, and is idempotent |
| FilterPanel.ToggleFilter | components/search/SearchFilters.tsx:36-41 | only the given toggle flips; the other toggles, the bar type and the sort key stay |
| FilterPanel.ToggleTwice | components/search/SearchFilters.tsx:36-41 | toggling twice restores the record |
| FilterPanel.TogglesCommute | components/search/SearchFilters.tsx:36-41 | toggles of two filters commute |
| FilterPanel.UpdateBarType | components/search/SearchFilters.tsx:43-48 | only the bar type changes |
| FilterPanel.UpdateSortBy | components/search/SearchFilters.tsx:50-55 | only the sort key changes |
| FilterPanel.UpdatesOverwrite | components/search/SearchFilters.tsx:43-55 | setting the current value changes nothing, and a second setting overwrites the first |
| FilterPanel.DefaultsAreOffered | components/search/SearchFilters.tsx:21-34 | the default bar type and sort key are among the offered options, and no option repeats |
| SearchBox.Suggestions | components/search/SearchBar.tsx:32-48 | at most five, and none unless it is a city search with more than two characters |
| SearchBox.SuggestionsMatch | components/search/SearchBar.tsx:40-42 | every suggestion is a listed city containing the text, ignoring case, in list order |
| SearchBox.SuggestionsCompleteUnlessFull | components/search/SearchBar.tsx:40-42 | a matching city is missing only when five are already shown |
| SearchBox.SearchBar.constructor | components/search/SearchBar.tsx:15-17 | the box starts with the initial value and no suggestions |
| SearchBox.SearchBar.SetQuery | components/search/SearchBar.tsx:107 | only the text changes |
| SearchBox.SearchBar.RefreshSuggestions | components/search/SearchBar.tsx:32-48 | the suggestions become `Suggestions` of the mode and text |
| SearchBox.SearchBar.HandleSubmit | components/search/SearchBar.tsx:50-88 | a city search passes the text on; a nearby search passes the position if there is one; the suggestions are cleared |
| SearchBox.SearchBar.HandleSuggestionClick | components/search/SearchBar.tsx:90-95 | the suggestion is stored and searched, and the suggestions are cleared |
| SearchBox.CitySuggestsItself | components/search/SearchBar.tsx:34-42 | a listed city is suggested for its own name |
| SearchBox.ClickReopensSuggestions | components/search/SearchBar.tsx:32-95 | as written, clicking a suggestion other than the typed text leaves the suggestion list non-empty |
| SearchBox.ClickCorrected | components/search/SearchBar.tsx:90-95 | the corrected click leaves the suggestion text and an empty suggestion list |
| SearchBox.CorrectedTypingAgrees | components/search/SearchBar.tsx:32-48 | computing suggestions in the change handler shows the same list as the effect for every change of the text |
| HomePage.CityOf | app/page.tsx:89 | a city is derived exactly in city mode |
| HomePage.CityOfShape | app/page.tsx:89 | the derived city has no comma and no white space at either end, is surrounded only by white space in the text before the first comma, occurs in the text, and is the trimmed text when there is no comma |
| HomePage.PaddedByUnique | app/page.tsx:89 | at most one text without white space at either end is surrounded only by white space in a given text, so the clauses of `CityOfShape` determine the city |
| HomePage.RequestFor | app/page.tsx:86-91 | the request carries the mode, the text, the filters and the derived city |
| HomePage.HandleSearchStoresQuery | app/page.tsx:62-95 | the text is stored, the mode and filters kept, and unless it is an empty city search the outcome is shown and loading stops |
| HomePage.EmptyCitySearchOnlyStoresText | app/page.tsx:68 | an empty city search stores the empty text and changes nothing else |
| HomePage.FiltersChangeStoresFilters | app/page.tsx:97-109 | new filters are stored; before the first search nothing else changes, after it the stored text is searched again with them |
| HomePage.SearchBoxQueriesAreSearched | app/page.tsx:153-157 | a city search the box lets through, by its enabled button or a suggestion, is never dropped by the hook's guard |
| HomePage.Page.constructor | app/page.tsx:18-29 | the page starts in nearby mode with the hook's initial state |
| HomePage.Page.HandleSearchModeChange | app/page.tsx:57-60 | only the mode changes |
| HomePage.Page.HandleSearch | app/page.tsx:62-95 | searches with the current mode and filters, and the state becomes `AfterHandleSearch` |
| HomePage.Page.HandleFiltersChange | app/page.tsx:97-109 | searches again exactly when a search has happened, with the stored text and the new filters; the state becomes `AfterFiltersChange` |

## Left out

- Parsing times: a stored "HH:MM" text is held as hour and minute numbers, 0-23 and 0-59. `Number` on malformed text (NaN) and hours above 23 are not modelled.
- Schedule.IsOpenNow: `parseInt(time.replace(':', ''))` is modelled as hours*100+minutes of a well-formed time.
- Schedule.FormatTime: its own contract gives only the shape; what the text reads back as is stated by `FormatTimeReadsBack`.
- The clock: `new Date()` is the `Instant` parameter, and the response's `searchTime` is omitted.
- `localeCompare` is taken as the order of character codes; locale collation is not modelled.
- Strings are sequences of characters. UTF-16 surrogate pairs and non-ASCII `toLowerCase` are not modelled.
- `\w` is ASCII letters, digits and underscore, as in JavaScript without the `u` flag.
- The database and its client are the `hotelsFor` and `barsFor` parameters. `null` data is the empty list. A returned error is `Failed`; for the hotels query a thrown error is also `Failed` (500). An error thrown by the bars query, which the route answers with 500, is not modelled: a bars result is either data or a returned error. The route's logging is not modelled.
- `calculateDistance` (haversine) and the `parseFloat` of `lat`/`lng` are the `distanceTo` parameter, so floating point and NaN distances are not modelled. The route's own POST handler and helper functions other than `GET` are not part of this model.
- SearchRoute.ParseInt: a `0x` prefix and the unused `radius` beyond its parsing are not modelled.
- Reading and writing `localStorage`, `JSON.parse`/`JSON.stringify`, and the effect that loads a stored value on mount are not modelled. Only the in-memory value is.
- `searchHotels` in lib/api.ts is not part of this model; a call is given as its outcome.
- React's batching, re-renders and interleavings of concurrent `performSearch` calls are not modelled. Each handler runs to completion in order.
- SearchBox.SearchBar.HandleSubmit: the browser geolocation request, its error `alert`s and the console logging are replaced by the optional `position` argument.
- The home page's `testSupabaseConnection` (nearby mode) only logs and is not modelled.
- Presentation components, `debounce`, `cn` and `formatDistance` are not part of this model.
- Formatting.TruncateText: `maxLength` is a natural number. A negative length, for which `slice` counts from the end, is not modelled.
- FilterPanel.ToggleFilter: it is defined only for the six boolean keys. Toggling `barType` or `sortBy` would store a boolean there, which the type does not allow.

## Findings

| source | as written | input that shows it | evidently intended | confidence | as-written member | corrected member |
|---|---|---|---|---|---|---|
| components/search/SearchBar.tsx:32-48 | `handleSuggestionClick` clears the suggestions, but the effect keyed on `[query, mode]` then runs for the new query and refills the list | in city mode, type "san" and click "San Diego, CA": the list shows "San Diego, CA" again | a click closes the suggestion list | medium, not executed | SearchBox.ClickReopensSuggestions | SearchBox.ClickCorrected |
