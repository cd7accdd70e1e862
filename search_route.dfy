/** The GET handler of the search route (app/api/search/route.ts): query
    parameters with their defaults, the city-search check, the mapping of
    free text to a city, the hotel/bar join, the distance attached in nearby
    mode and the sort. The two database queries are the function parameters
    `hotelsFor` and `barsFor`; the great-circle distance, including the
    `parseFloat` of the user's coordinates, is the function parameter
    `distanceTo`. */
module SearchRoute {
  import opened Base
  import opened Text
  import opened Domain
  import opened Sorting

  // ---------------------------------------------------------------------
  // Query parameters and collaborators

  /** The hotels query, run against the database. */
  type HotelsQuery = HotelQuery -> Outcome<seq<Hotel>>

  /** The bars query for a list of hotel ids, run against the database. */
  type BarsQuery = seq<string> -> Outcome<seq<Bar>>

  /** `calculateDistance` from the user's `lat` and `lng` texts to a
      hotel's latitude and longitude. */
  type DistanceFunction = (string, string, real, real) -> real

  /** The query string: the value of each parameter. */
  type QueryParams = map<string, string>

  /** `searchParams.get(key)`: `null` when the parameter is absent. */
  function Param(params: QueryParams, key: string): Option<string>
  {
    if key in params then Some(params[key]) else None
  }

  /** A string value JavaScript treats as true: present and non-empty. */
  predicate Truthy(v: Option<string>)
  {
    v.Some? && v.value != ""
  }

  /** `v || fallback` on an optional string. */
  function OrElse(v: Option<string>, fallback: string): (r: string)
    ensures Truthy(v) ==> r == v.value
    ensures !Truthy(v) ==> r == fallback
  {
    if Truthy(v) then v.value else fallback
  }

  /** The longest prefix of `s` made of decimal digits. */
  function DigitPrefix(s: string): (r: string)
    ensures StartsWith(s, r) && AllDigits(r)
    ensures |r| < |s| ==> !IsDigit(s[|r|])
  {
    if s == [] || !IsDigit(s[0]) then []
    else
      var rest := DigitPrefix(s[1..]);
      assert ([s[0]] + rest)[1..] == rest;
      [s[0]] + rest
  }

  /** `parseInt(s)` in base 10: leading white space skipped, an optional
      sign, then as many digits as follow; `None` is `NaN`. */
  function ParseInt(s: string): (r: Option<int>)
  {
    var t := TrimStart(s);
    var negative := t != [] && t[0] == '-';
    var unsigned := if t != [] && (t[0] == '-' || t[0] == '+') then t[1..] else t;
    var digits := DigitPrefix(unsigned);
    if digits == [] then None
    else Some(if negative then 0 - DigitsValue(digits) else DigitsValue(digits))
  }

  lemma DigitsValueUnique(a: string, b: string)
    requires AllDigits(a) && AllDigits(b) && a == b
    ensures DigitsValue(a) == DigitsValue(b)
  {
  }

  /** `parseInt` reads back the decimal text of a number. */
  lemma ParseIntOfNatText(n: nat)
    ensures ParseInt(NatText(n)) == Some(n)
  {
    var s := NatText(n);
    assert !IsSpace(s[0]);
    assert TrimStart(s) == s;
    assert s[0] != '-' && s[0] != '+';
    assert DigitPrefix(s) == s;
  }

  /** The parameters as the handler reads them. */
  datatype SearchRequest = SearchRequest(
    query: Option<string>,
    mode: string,
    lat: Option<string>,
    lng: Option<string>,
    radius: Option<int>,
    filters: Filters)

  function ParseToggle(params: QueryParams, k: FilterKey): bool
  {
    Param(params, KeyName(k)) == Some("true")
  }

  /** Reads the parameters, with `mode` 'city', `radius` 50, `barType` ''
      and `sortBy` 'distance' in place of an absent or empty value. */
  function ParseRequest(params: QueryParams): (r: SearchRequest)
    ensures r.query == Param(params, "q") && r.lat == Param(params, "lat") && r.lng == Param(params, "lng")
    ensures r.mode != "" && r.filters.sortBy != ""
    ensures r.mode == "city" <==> Param(params, "mode") in {None, Some(""), Some("city")}
    ensures r.filters.sortBy == "distance" <==> Param(params, "sortBy") in {None, Some(""), Some("distance")}
    ensures r.filters.barType == "" <==> !Truthy(Param(params, "barType"))
    // a value that is present and non-empty is used as given
    ensures Truthy(Param(params, "mode")) ==> r.mode == Param(params, "mode").value
    ensures Truthy(Param(params, "sortBy")) ==> r.filters.sortBy == Param(params, "sortBy").value
    ensures Truthy(Param(params, "barType")) ==> r.filters.barType == Param(params, "barType").value
    // the radius is `parseInt` of the given text, or of "50"
    ensures r.radius == ParseInt(OrElse(Param(params, "radius"), "50"))
    ensures !Truthy(Param(params, "radius")) ==> r.radius == Some(50)
  {
    assert NatText(50) == "50";
    ParseIntOfNatText(50);
    SearchRequest(
      Param(params, "q"),
      OrElse(Param(params, "mode"), "city"),
      Param(params, "lat"),
      Param(params, "lng"),
      ParseInt(OrElse(Param(params, "radius"), "50")),
      Filters(
        ParseToggle(params, OpenNowKey),
        ParseToggle(params, HappyHourKey),
        ParseToggle(params, ServesFoodKey),
        ParseToggle(params, RooftopKey),
        ParseToggle(params, LiveMusicKey),
        ParseToggle(params, OutdoorSeatingKey),
        OrElse(Param(params, "barType"), ""),
        OrElse(Param(params, "sortBy"), "distance")))
  }

  /** A request without parameters reads as a city search with radius 50
      and the default filters. */
  lemma EmptyRequestDefaults()
    ensures ParseRequest(map[]) == SearchRequest(None, "city", None, None, Some(50), DefaultFilters)
  {
    assert NatText(50) == "50";
    ParseIntOfNatText(50);
  }

  /** Each toggle is on exactly for the text "true": "True", "1" or an
      empty value leave it off. */
  lemma ToggleOnlyForTrue(params: QueryParams, k: FilterKey)
    ensures Flag(ParseRequest(params).filters, k) <==> Param(params, KeyName(k)) == Some("true")
  {
  }

  /** An empty value counts as absent for every parameter with a default. */
  lemma EmptyValueMeansDefault(params: QueryParams, key: string)
    requires key in {"mode", "radius", "barType", "sortBy"}
    ensures ParseRequest(params[key := ""]) == ParseRequest(params - {key})
  {
    var p, q := params[key := ""], params - {key};
    SameDefaulted(params, key, "mode", "city");
    SameDefaulted(params, key, "radius", "50");
    SameDefaulted(params, key, "barType", "");
    SameDefaulted(params, key, "sortBy", "distance");
    SameOtherParams(params, key, "q");
    SameOtherParams(params, key, "lat");
    SameOtherParams(params, key, "lng");
    SameOtherParams(params, key, "openNow");
    SameOtherParams(params, key, "happyHour");
    SameOtherParams(params, key, "servesFood");
    SameOtherParams(params, key, "rooftop");
    SameOtherParams(params, key, "liveMusic");
    SameOtherParams(params, key, "outdoorSeating");
    var a, b := ParseRequest(p), ParseRequest(q);
    assert a.query == b.query && a.lat == b.lat && a.lng == b.lng;
    assert a.mode == b.mode;
    assert a.radius == b.radius;
    assert a.filters == b.filters;
  }

  lemma SameDefaulted(params: QueryParams, key: string, name: string, fallback: string)
    ensures OrElse(Param(params[key := ""], name), fallback) == OrElse(Param(params - {key}, name), fallback)
  {
  }

  lemma SameOtherParams(params: QueryParams, key: string, name: string)
    requires name != key
    ensures Param(params[key := ""], name) == Param(params - {key}, name) == Param(params, name)
  {
  }

  // ---------------------------------------------------------------------
  // Validation and the hotel query

  /** A city search needs a non-empty `q`. */
  predicate MissingCityQuery(req: SearchRequest)
  {
    !Truthy(req.query) && req.mode == "city"
  }

  const CityQueryRequired := "Query parameter is required for city search"
  const SearchFailed := "Failed to search hotels"

  /** The city a city search is narrowed to: the first of New York, Los
      Angeles and Chicago whose lower-case name the lower-cased query
      contains. */
  function CityRestriction(mode: string, query: Option<string>): (r: Option<string>)
    ensures r.Some? ==> r.value in {"New York", "Los Angeles", "Chicago"}
    ensures r.Some? ==> mode == "city" && Truthy(query)
  {
    if mode == "city" && Truthy(query) then
      var searchTerm := Lower(query.value);
      if Contains(searchTerm, "new york") then Some("New York")
      else if Contains(searchTerm, "los angeles") then Some("Los Angeles")
      else if Contains(searchTerm, "chicago") then Some("Chicago")
      else None
    else None
  }

  /** The hotel query: hotels that have a bar, in the restricted city if
      any, at most 50 rows. */
  datatype HotelQuery = HotelQuery(hasBar: bool, city: Option<string>, limit: nat)

  /** Lower-casing is idempotent. */
  lemma LowerIdempotent(s: string)
    ensures Lower(Lower(s)) == Lower(s)
  {
  }

  /** The city mapping ignores letter case. */
  lemma CityRestrictionIgnoresCase(mode: string, q: string)
    ensures CityRestriction(mode, Some(Lower(q))) == CityRestriction(mode, Some(q))
  {
    LowerIdempotent(q);
    assert Lower(q) == "" <==> q == "";
  }

  /** The fixed priority of the city mapping: New York, else Los Angeles,
      else Chicago, else no restriction at all; only a city search with
      text is ever narrowed. */
  lemma CityRestrictionCases(mode: string, q: string)
    ensures var t, r := Lower(q), CityRestriction(mode, Some(q));
      (mode != "city" || q == "" ==> r == None)
      && (mode == "city" && q != "" ==>
            (Contains(t, "new york") ==> r == Some("New York"))
            && (!Contains(t, "new york") && Contains(t, "los angeles") ==> r == Some("Los Angeles"))
            && (!Contains(t, "new york") && !Contains(t, "los angeles") && Contains(t, "chicago") ==> r == Some("Chicago"))
            && (!Contains(t, "new york") && !Contains(t, "los angeles") && !Contains(t, "chicago") ==> r == None))
  {
  }

  /** A query naming two of the cities is narrowed to the earlier one in
      the fixed priority. */
  lemma CityPriority(q: string)
    requires Contains(Lower(q), "new york")
    ensures CityRestriction("city", Some(q)) == Some("New York")
  {
    assert q != [];
  }

  // ---------------------------------------------------------------------
  // Join, distances, order

  function HotelIds(hotels: seq<Hotel>): (ids: seq<string>)
    ensures |ids| == |hotels|
    ensures forall i :: 0 <= i < |hotels| ==> ids[i] == hotels[i].id
  {
    seq(|hotels|, i requires 0 <= i < |hotels| => hotels[i].id)
  }

  /** The bars whose `hotel_id` is `id`, in fetched order. */
  function BarsOf(id: string, bars: seq<Bar>): seq<Bar>
  {
    Filter(bars, (b: Bar) => b.hotelId == id)
  }

  /** One entry per hotel, in order, carrying the bars that belong to it
      and no distance. */
  function Join(hotels: seq<Hotel>, bars: seq<Bar>): (r: seq<HotelWithBars>)
    ensures |r| == |hotels|
    ensures forall i :: 0 <= i < |hotels| ==> r[i].hotel == hotels[i] && r[i].distance.None?
  {
    seq(|hotels|, i requires 0 <= i < |hotels| => HotelWithBars(hotels[i], BarsOf(hotels[i].id, bars), None))
  }

  /** The join attaches to each hotel exactly the bars with its id, in the
      order they were fetched. */
  lemma JoinAttachesMatchingBars(hotels: seq<Hotel>, bars: seq<Bar>, i: int, b: Bar)
    requires 0 <= i < |hotels|
    ensures Join(hotels, bars)[i].hotel == hotels[i]
    ensures Join(hotels, bars)[i].distance.None?
    ensures b in Join(hotels, bars)[i].bars <==> b in bars && b.hotelId == hotels[i].id
    ensures IsSubsequence(Join(hotels, bars)[i].bars, bars)
    ensures Count(Join(hotels, bars)[i].bars, b) == if b.hotelId == hotels[i].id then Count(bars, b) else 0
  {
    FilterMembers(bars, (b: Bar) => b.hotelId == hotels[i].id, b);
    FilterSubsequence(bars, (b: Bar) => b.hotelId == hotels[i].id);
    FilterCount(bars, (b: Bar) => b.hotelId == hotels[i].id, b);
  }

  /** The bars the handler works with: those fetched for the hotels' ids,
      none when there are no hotels, none when the bars query fails. */
  function FetchedBars(hotels: seq<Hotel>, barsFor: BarsQuery): seq<Bar>
  {
    if |hotels| > 0 && barsFor(HotelIds(hotels)).Success? then barsFor(HotelIds(hotels)).value else []
  }

  /** A number JavaScript treats as true: present and not zero. */
  predicate TruthyNumber(v: Option<real>)
  {
    v.Some? && v.value != 0.0
  }

  /** Distances are computed in nearby mode when both coordinates are
      given. */
  predicate DistanceWanted(req: SearchRequest)
  {
    req.mode == "nearby" && Truthy(req.lat) && Truthy(req.lng)
  }

  /** The user's position, as the `lat` and `lng` texts. */
  datatype Origin = Origin(lat: string, lng: string)

  /** Where distances are measured from, when they are measured at all. */
  function OriginOf(req: SearchRequest): (r: Option<Origin>)
    ensures r.Some? <==> DistanceWanted(req)
  {
    if DistanceWanted(req) then Some(Origin(req.lat.value, req.lng.value)) else None
  }

  predicate HasCoordinates(h: Hotel)
  {
    TruthyNumber(h.latitude) && TruthyNumber(h.longitude)
  }

  /** The entry with its distance from `origin`, when the hotel has both
      coordinates. */
  function Locate(h: HotelWithBars, origin: Origin, distanceTo: DistanceFunction): (r: HotelWithBars)
    ensures r.hotel == h.hotel && r.bars == h.bars
    ensures HasCoordinates(h.hotel) ==>
      r.distance == Some(distanceTo(origin.lat, origin.lng, h.hotel.latitude.value, h.hotel.longitude.value))
    ensures !HasCoordinates(h.hotel) ==> r.distance == h.distance
  {
    if HasCoordinates(h.hotel) then
      h.(distance := Some(distanceTo(origin.lat, origin.lng, h.hotel.latitude.value, h.hotel.longitude.value)))
    else h
  }

  function WithDistances(hs: seq<HotelWithBars>, origin: Option<Origin>, distanceTo: DistanceFunction): (r: seq<HotelWithBars>)
    ensures |r| == |hs|
    ensures origin.Some? ==> forall i :: 0 <= i < |hs| ==> r[i] == Locate(hs[i], origin.value, distanceTo)
    ensures origin.None? ==> r == hs
  {
    if origin.Some? then seq(|hs|, i requires 0 <= i < |hs| => Locate(hs[i], origin.value, distanceTo))
    else hs
  }

  /** `(distance || 0)`. */
  function DistanceKey(h: HotelWithBars): real
  {
    if h.distance.Some? then h.distance.value else 0.0
  }

  /** `(star_rating || 0)`. */
  function RatingKey(h: HotelWithBars): int
  {
    if h.hotel.starRating.Some? then h.hotel.starRating.value else 0
  }

  /** `a.localeCompare(b)`, taken as the order of character codes. */
  function LexCompare(a: string, b: string): (r: int)
    ensures -1 <= r <= 1
    ensures r == 0 <==> a == b
  {
    if a == [] && b == [] then 0
    else if a == [] then -1
    else if b == [] then 1
    else if a[0] < b[0] then -1
    else if b[0] < a[0] then 1
    else
      var r := LexCompare(a[1..], b[1..]);
      assert a == [a[0]] + a[1..] && b == [b[0]] + b[1..];
      r
  }

  lemma {:induction false} LexCompareFlips(a: string, b: string)
    ensures LexCompare(a, b) == -LexCompare(b, a)
  {
    if a != [] && b != [] && a[0] == b[0] {
      LexCompareFlips(a[1..], b[1..]);
    }
  }

  lemma {:induction false} LexCompareTransitive(a: string, b: string, c: string)
    requires LexCompare(a, b) <= 0 && LexCompare(b, c) <= 0
    ensures LexCompare(a, c) <= 0
  {
    if a != [] && b != [] && c != [] && a[0] == b[0] && b[0] == c[0] {
      LexCompareTransitive(a[1..], b[1..], c[1..]);
    }
  }

  /** The comparator of `hotelsWithBars.sort` for a `sortBy` key. */
  function CompareBy(sortBy: string): Comparator<HotelWithBars>
  {
    if sortBy == "distance" then (a: HotelWithBars, b: HotelWithBars) => DistanceKey(a) - DistanceKey(b)
    else if sortBy == "rating" then (a: HotelWithBars, b: HotelWithBars) => (RatingKey(b) - RatingKey(a)) as real
    else if sortBy == "name" then (a: HotelWithBars, b: HotelWithBars) => LexCompare(a.hotel.name, b.hotel.name) as real
    else (a: HotelWithBars, b: HotelWithBars) => 0.0
  }

  /** What each comparator says about a pair: by distance, nearer first;
      by rating, higher first; by name, in character-code order; under any
      other key, every pair is equivalent. A missing distance or rating
      counts as 0. */
  lemma CompareByOrders(sortBy: string, a: HotelWithBars, b: HotelWithBars)
    ensures var c := CompareBy(sortBy)(a, b);
      (sortBy == "distance" ==> (c < 0.0 <==> DistanceKey(a) < DistanceKey(b)) && (c == 0.0 <==> DistanceKey(a) == DistanceKey(b)))
      && (sortBy == "rating" ==> (c < 0.0 <==> RatingKey(a) > RatingKey(b)) && (c == 0.0 <==> RatingKey(a) == RatingKey(b)))
      && (sortBy == "name" ==> (c < 0.0 <==> LexCompare(a.hotel.name, b.hotel.name) < 0) && (c == 0.0 <==> a.hotel.name == b.hotel.name))
      && (sortBy !in {"distance", "rating", "name"} ==> c == 0.0)
  {
  }

  /** Every comparator the route uses is consistent, so the sorted result
      is well defined. */
  lemma CompareByConsistent(sortBy: string)
    ensures Consistent(CompareBy(sortBy))
  {
    if sortBy == "name" {
      forall a: HotelWithBars, b: HotelWithBars {
        LexCompareFlips(a.hotel.name, b.hotel.name);
      }
      forall a: HotelWithBars, b: HotelWithBars, c: HotelWithBars
        | LexCompare(a.hotel.name, b.hotel.name) <= 0 && LexCompare(b.hotel.name, c.hotel.name) <= 0
        ensures LexCompare(a.hotel.name, c.hotel.name) <= 0
      {
        LexCompareTransitive(a.hotel.name, b.hotel.name, c.hotel.name);
      }
    }
  }

  // ---------------------------------------------------------------------
  // The handler

  datatype Response =
    | ErrorResponse(status: int, error: string)
    | HotelsResponse(hotels: seq<HotelWithBars>, totalCount: int)

  /** The list the handler sorts: the join, with distances where they
      apply. */
  function Unsorted(origin: Option<Origin>, hotels: seq<Hotel>, barsFor: BarsQuery,
                    distanceTo: DistanceFunction): seq<HotelWithBars>
  {
    WithDistances(Join(hotels, FetchedBars(hotels, barsFor)), origin, distanceTo)
  }

  /** What the GET handler answers. */
  function Respond(params: QueryParams, hotelsFor: HotelsQuery,
                   barsFor: BarsQuery,
                   distanceTo: DistanceFunction): (r: Response)
    ensures r.ErrorResponse? <==> MissingCityQuery(ParseRequest(params)) || FetchedHotels(params, hotelsFor).Failed?
    ensures r.ErrorResponse? ==> (r.status == 400 <==> MissingCityQuery(ParseRequest(params)))
    ensures r.HotelsResponse? ==> r.totalCount == |r.hotels| == |FetchedHotels(params, hotelsFor).value|
  {
    var req := ParseRequest(params);
    if MissingCityQuery(req) then ErrorResponse(400, CityQueryRequired)
    else
      var fetched := hotelsFor(HotelQuery(true, CityRestriction(req.mode, req.query), 50));
      if fetched.Failed? then ErrorResponse(500, SearchFailed)
      else
        var hotels := InsertionSort(Unsorted(OriginOf(req), fetched.value, barsFor, distanceTo), CompareBy(req.filters.sortBy));
        HotelsResponse(hotels, |hotels|)
  }

  /** The GET handler: builds the hotel query step by step, joins the
      bars, attaches distances in place and sorts in place. */
  method HandleGet(params: QueryParams, hotelsFor: HotelsQuery, barsFor: BarsQuery, distanceTo: DistanceFunction)
    returns (response: Response)
    ensures response == Respond(params, hotelsFor, barsFor, distanceTo)
  {
    var req := ParseRequest(params);
    if !Truthy(req.query) && req.mode == "city" {
      return ErrorResponse(400, CityQueryRequired);
    }
    var hotelQuery := BuildHotelQuery(req);
    var fetched := hotelsFor(hotelQuery);
    if fetched.Failed? {
      return ErrorResponse(500, SearchFailed);
    }
    var hotels := SortedListing(req, fetched.value, barsFor, distanceTo);
    response := HotelsResponse(hotels, |hotels|);
  }

  /** The bars of the fetched hotels, joined to them, with distances
      attached in place and sorted in place. */
  method SortedListing(req: SearchRequest, hotels: seq<Hotel>, barsFor: BarsQuery, distanceTo: DistanceFunction)
    returns (listing: seq<HotelWithBars>)
    ensures listing == InsertionSort(Unsorted(OriginOf(req), hotels, barsFor, distanceTo), CompareBy(req.filters.sortBy))
  {
    var allBars: seq<Bar> := [];
    if |hotels| > 0 {
      var barsData := barsFor(HotelIds(hotels));
      if barsData.Success? {
        allBars := barsData.value;
      }
    }
    var joined := Join(hotels, allBars);
    var hotelsWithBars := new HotelWithBars[|joined|](i requires 0 <= i < |joined| => joined[i]);
    assert hotelsWithBars[..] == joined;
    if req.mode == "nearby" && Truthy(req.lat) && Truthy(req.lng) {
      AttachDistances(hotelsWithBars, Origin(req.lat.value, req.lng.value), distanceTo);
    }
    SortInPlace(hotelsWithBars, CompareBy(req.filters.sortBy));
    listing := hotelsWithBars[..];
  }

  /** The hotel query, narrowed to a city by reassigning it. */
  method BuildHotelQuery(req: SearchRequest) returns (hotelQuery: HotelQuery)
    ensures hotelQuery == HotelQuery(true, CityRestriction(req.mode, req.query), 50)
  {
    hotelQuery := HotelQuery(true, None, 50);
    if req.mode == "city" && Truthy(req.query) {
      var searchTerm := Lower(req.query.value);
      if Contains(searchTerm, "new york") {
        hotelQuery := hotelQuery.(city := Some("New York"));
      } else if Contains(searchTerm, "los angeles") {
        hotelQuery := hotelQuery.(city := Some("Los Angeles"));
      } else if Contains(searchTerm, "chicago") {
        hotelQuery := hotelQuery.(city := Some("Chicago"));
      }
    }
  }

  /** The `forEach` that adds a distance to each hotel with coordinates. */
  method AttachDistances(hotelsWithBars: array<HotelWithBars>, origin: Origin, distanceTo: DistanceFunction)
    modifies hotelsWithBars
    ensures hotelsWithBars[..] == WithDistances(old(hotelsWithBars[..]), Some(origin), distanceTo)
  {
    var i := 0;
    while i < hotelsWithBars.Length
      invariant 0 <= i <= hotelsWithBars.Length
      invariant forall k :: 0 <= k < i ==> hotelsWithBars[k] == Locate(old(hotelsWithBars[k]), origin, distanceTo)
      invariant forall k :: i <= k < hotelsWithBars.Length ==> hotelsWithBars[k] == old(hotelsWithBars[k])
    {
      var hotel := hotelsWithBars[i];
      if TruthyNumber(hotel.hotel.latitude) && TruthyNumber(hotel.hotel.longitude) {
        var distance := distanceTo(origin.lat, origin.lng, hotel.hotel.latitude.value, hotel.hotel.longitude.value);
        hotelsWithBars[i] := hotel.(distance := Some(distance));
      }
      i := i + 1;
    }
  }

  // ---------------------------------------------------------------------
  // What the response promises

  /** A city search without `q` is answered 400 before any query runs: the
      answer does not depend on what the database would return. */
  lemma CitySearchNeedsQuery(params: QueryParams, hotelsFor: HotelsQuery,
                             barsFor: BarsQuery,
                             distanceTo: DistanceFunction)
    requires !Truthy(Param(params, "q")) && OrElse(Param(params, "mode"), "city") == "city"
    ensures Respond(params, hotelsFor, barsFor, distanceTo) == ErrorResponse(400, CityQueryRequired)
  {
  }

  /** A failed hotel query is answered 500. */
  lemma FailedHotelQueryIs500(params: QueryParams, hotelsFor: HotelsQuery,
                              barsFor: BarsQuery,
                              distanceTo: DistanceFunction)
    requires !MissingCityQuery(ParseRequest(params))
    requires FetchedHotels(params, hotelsFor).Failed?
    ensures Respond(params, hotelsFor, barsFor, distanceTo) == ErrorResponse(500, SearchFailed)
  {
  }

  /** The hotels fetched, as the hotel query returned them. */
  function FetchedHotels(params: QueryParams, hotelsFor: HotelsQuery): Outcome<seq<Hotel>>
  {
    var req := ParseRequest(params);
    hotelsFor(HotelQuery(true, CityRestriction(req.mode, req.query), 50))
  }

  /** The hotels of a successful answer: the sorted join. */
  lemma Listing(params: QueryParams, hotelsFor: HotelsQuery, barsFor: BarsQuery,
                distanceTo: DistanceFunction) returns (listing: seq<HotelWithBars>)
    requires !MissingCityQuery(ParseRequest(params))
    requires FetchedHotels(params, hotelsFor).Success?
    ensures var req := ParseRequest(params);
      Respond(params, hotelsFor, barsFor, distanceTo) == HotelsResponse(listing, |listing|)
      && listing == InsertionSort(Unsorted(OriginOf(req), FetchedHotels(params, hotelsFor).value, barsFor, distanceTo),
                                  CompareBy(req.filters.sortBy))
  {
    var req := ParseRequest(params);
    listing := InsertionSort(Unsorted(OriginOf(req), FetchedHotels(params, hotelsFor).value, barsFor, distanceTo),
                             CompareBy(req.filters.sortBy));
  }

  /** A successful answer lists every joined hotel once, reordered only,
      and counts them: nothing is filtered out. */
  lemma ResponseIsReorderedJoin(params: QueryParams, hotelsFor: HotelsQuery,
                                barsFor: BarsQuery,
                                distanceTo: DistanceFunction)
    requires !MissingCityQuery(ParseRequest(params))
    requires FetchedHotels(params, hotelsFor).Success?
    ensures var r := Respond(params, hotelsFor, barsFor, distanceTo);
      var hotels := FetchedHotels(params, hotelsFor).value;
      r.HotelsResponse?
      && multiset(r.hotels) == multiset(Unsorted(OriginOf(ParseRequest(params)), hotels, barsFor, distanceTo))
      && r.totalCount == |r.hotels| == |hotels|
  {
    var req := ParseRequest(params);
    SortPermutes(Unsorted(OriginOf(req), FetchedHotels(params, hotelsFor).value, barsFor, distanceTo), CompareBy(req.filters.sortBy));
  }

  /** When the bars query fails every hotel is listed with no bars, not
      with an error. */
  lemma FailedBarsQueryGivesNoBars(params: QueryParams, hotelsFor: HotelsQuery,
                                   barsFor: BarsQuery,
                                   distanceTo: DistanceFunction)
    requires !MissingCityQuery(ParseRequest(params))
    requires FetchedHotels(params, hotelsFor).Success?
    requires barsFor(HotelIds(FetchedHotels(params, hotelsFor).value)).Failed?
    ensures var r := Respond(params, hotelsFor, barsFor, distanceTo);
      r.HotelsResponse? && forall h :: h in r.hotels ==> h.bars == []
  {
    var req := ParseRequest(params);
    var hotels := FetchedHotels(params, hotelsFor).value;
    assert FetchedBars(hotels, barsFor) == [];
    var u := Unsorted(OriginOf(req), hotels, barsFor, distanceTo);
    JoinWithoutBars(hotels, OriginOf(req), distanceTo);
    var listing := Listing(params, hotelsFor, barsFor, distanceTo);
    SortKeepsNoBars(u, CompareBy(req.filters.sortBy));
  }

  /** Joined with no bars, every hotel, located or not, has none. */
  lemma JoinWithoutBars(hotels: seq<Hotel>, origin: Option<Origin>, distanceTo: DistanceFunction)
    ensures var u := WithDistances(Join(hotels, []), origin, distanceTo);
      forall i :: 0 <= i < |u| ==> u[i].bars == []
  {
    var joined := Join(hotels, []);
    forall i | 0 <= i < |joined| ensures joined[i].bars == [] {
      assert joined[i].bars == BarsOf(hotels[i].id, []);
    }
  }

  /** Sorting hotels none of which has bars lists none with bars. */
  lemma SortKeepsNoBars(u: seq<HotelWithBars>, cmp: Comparator<HotelWithBars>)
    requires forall i :: 0 <= i < |u| ==> u[i].bars == []
    ensures forall h :: h in InsertionSort(u, cmp) ==> h.bars == []
  {
    forall h | h in InsertionSort(u, cmp) ensures h.bars == [] {
      var k := SortedFrom(u, cmp, h);
    }
  }

  /** A listed hotel carries a distance exactly when the request is a
      nearby search with both coordinates and the hotel has both of its
      own. */
  lemma DistanceOnlyWhenLocated(params: QueryParams, hotelsFor: HotelsQuery,
                                barsFor: BarsQuery,
                                distanceTo: DistanceFunction, h: HotelWithBars)
    requires !MissingCityQuery(ParseRequest(params))
    requires FetchedHotels(params, hotelsFor).Success?
    requires h in Respond(params, hotelsFor, barsFor, distanceTo).hotels
    ensures h.distance.Some? <==> DistanceWanted(ParseRequest(params)) && HasCoordinates(h.hotel)
  {
    var req := ParseRequest(params);
    var hotels := FetchedHotels(params, hotelsFor).value;
    var joined := Join(hotels, FetchedBars(hotels, barsFor));
    var u := Unsorted(OriginOf(req), hotels, barsFor, distanceTo);
    var listing := Listing(params, hotelsFor, barsFor, distanceTo);
    var k := SortedFrom(u, CompareBy(req.filters.sortBy), h);
    assert joined[k].distance.None? && joined[k].hotel == hotels[k];
  }

  /** The order of a successful answer under each `sortBy`: distance
      ascending and rating descending (a missing value counting as 0), name
      ascending, and the fetched order under any other key. */
  lemma ResponseOrder(params: QueryParams, hotelsFor: HotelsQuery,
                      barsFor: BarsQuery,
                      distanceTo: DistanceFunction)
    requires !MissingCityQuery(ParseRequest(params))
    requires FetchedHotels(params, hotelsFor).Success?
    ensures var req := ParseRequest(params);
      var r := Respond(params, hotelsFor, barsFor, distanceTo).hotels;
      && (req.filters.sortBy == "distance" ==>
            forall i, j :: 0 <= i < j < |r| ==> DistanceKey(r[i]) <= DistanceKey(r[j]))
      && (req.filters.sortBy == "rating" ==>
            forall i, j :: 0 <= i < j < |r| ==> RatingKey(r[i]) >= RatingKey(r[j]))
      && (req.filters.sortBy == "name" ==>
            forall i, j :: 0 <= i < j < |r| ==> LexCompare(r[i].hotel.name, r[j].hotel.name) <= 0)
      && (req.filters.sortBy !in {"distance", "rating", "name"} ==>
            r == Unsorted(OriginOf(req), FetchedHotels(params, hotelsFor).value, barsFor, distanceTo))
  {
    var req := ParseRequest(params);
    var sortBy := req.filters.sortBy;
    var u := Unsorted(OriginOf(req), FetchedHotels(params, hotelsFor).value, barsFor, distanceTo);
    CompareByConsistent(sortBy);
    SortSorted(u, CompareBy(sortBy));
    if sortBy !in {"distance", "rating", "name"} {
      SortKeepsOrderWhenAllEquivalent(u, CompareBy(sortBy));
    }
  }

  /** Hotels the comparator cannot tell apart keep their fetched order. */
  lemma ResponseSortIsStable(params: QueryParams, hotelsFor: HotelsQuery,
                             barsFor: BarsQuery,
                             distanceTo: DistanceFunction, x: HotelWithBars)
    requires !MissingCityQuery(ParseRequest(params))
    requires FetchedHotels(params, hotelsFor).Success?
    ensures var req := ParseRequest(params);
      var p := EquivalentTo(CompareBy(req.filters.sortBy), x);
      Filter(Respond(params, hotelsFor, barsFor, distanceTo).hotels, p)
      == Filter(Unsorted(OriginOf(req), FetchedHotels(params, hotelsFor).value, barsFor, distanceTo), p)
  {
    var req := ParseRequest(params);
    CompareByConsistent(req.filters.sortBy);
    SortStable(Unsorted(OriginOf(req), FetchedHotels(params, hotelsFor).value, barsFor, distanceTo), CompareBy(req.filters.sortBy), x);
  }

  /** The parameters that are parsed but never used: the six toggles,
      `barType` and `radius`. */
  predicate UnusedParam(key: string)
  {
    key in {"openNow", "happyHour", "servesFood", "rooftop", "liveMusic", "outdoorSeating", "barType", "radius"}
  }

  /** Setting or clearing a toggle, the bar type or the radius never
      changes the answer: the filters are parsed and then not applied. */
  lemma FiltersNotApplied(params: QueryParams, key: string, value: string,
                          hotelsFor: HotelsQuery,
                          barsFor: BarsQuery,
                          distanceTo: DistanceFunction)
    requires UnusedParam(key)
    ensures Respond(params[key := value], hotelsFor, barsFor, distanceTo) == Respond(params, hotelsFor, barsFor, distanceTo)
  {
    var a, b := ParseRequest(params[key := value]), ParseRequest(params);
    UnusedParamKeepsRequest(params, key, value);
    assert OriginOf(a) == OriginOf(b);
    assert MissingCityQuery(a) == MissingCityQuery(b);
    assert CityRestriction(a.mode, a.query) == CityRestriction(b.mode, b.query);
  }

  /** Setting an unused parameter leaves every field the answer reads. */
  lemma UnusedParamKeepsRequest(params: QueryParams, key: string, value: string)
    requires UnusedParam(key)
    ensures var a, b := ParseRequest(params[key := value]), ParseRequest(params);
      a.query == b.query && a.mode == b.mode && a.lat == b.lat && a.lng == b.lng
      && a.filters.sortBy == b.filters.sortBy
  {
    ParamUnaffected(params, key, value, "q");
    ParamUnaffected(params, key, value, "mode");
    ParamUnaffected(params, key, value, "lat");
    ParamUnaffected(params, key, value, "lng");
    ParamUnaffected(params, key, value, "sortBy");
  }

  lemma ParamUnaffected(params: QueryParams, key: string, value: string, name: string)
    requires name != key
    ensures Param(params[key := value], name) == Param(params, name)
  {
  }
}
