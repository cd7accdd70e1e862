/** The records the search logic reads (lib/types.ts, with the snake_case
    fields the running code actually reads from the database rows:
    `hotel_id`, `serves_food`, `happy_hour`, `star_rating`), the filter
    record shared by the client and the search route, and the inputs that
    the source reads from the clock. */
module Domain {
  import opened Base

  type Hour = h: int | 0 <= h < 24
  type Minute = m: int | 0 <= m < 60

  /** A wall-clock time of day: the `[hours, minutes]` that
      `time.split(':').map(Number)` yields for a stored "HH:MM" string. */
  datatype Clock = Clock(hour: Hour, minute: Minute)

  /** Minutes since midnight: `hours * 60 + minutes`. */
  function MinutesOf(c: Clock): (m: int)
    ensures 0 <= m < 24 * 60
  {
    c.hour * 60 + c.minute
  }

  type Weekday = d: int | 0 <= d < 7
  type MinuteOfDay = m: int | 0 <= m < 24 * 60

  /** What the source reads from `new Date()`: `getDay()` (0 is Sunday) and
      `getHours() * 60 + getMinutes()`. */
  datatype Instant = Instant(day: Weekday, minute: MinuteOfDay)

  /** The weekday names the source indexes with `getDay()`. */
  const DayNames: seq<string> :=
    ["sunday", "monday", "tuesday", "wednesday", "thursday", "friday", "saturday"]

  /** One day's `{ open, close }` entry of a bar's `hours`. */
  datatype DayHours = DayHours(open: Clock, close: Clock)

  /** A bar's `hours`: weekday name to that day's entry; a day without an
      entry is a day the bar is closed. */
  type WeeklyHours = map<string, DayHours>

  /** A bar's `happy_hour`: the weekday names it runs on and its window. */
  datatype HappyHour = HappyHour(days: seq<string>, startTime: Clock, endTime: Clock)

  /** A row of the `bars` table. */
  datatype Bar = Bar(
    id: string,
    hotelId: string,
    barType: string,
    servesFood: bool,
    hours: Option<WeeklyHours>,
    happyHour: Option<HappyHour>,
    features: seq<string>)

  /** A row of the `hotels` table; `latitude`, `longitude` and
      `star_rating` may be null. */
  datatype Hotel = Hotel(
    id: string,
    name: string,
    latitude: Option<real>,
    longitude: Option<real>,
    starRating: Option<int>)

  /** A hotel row spread together with its `bars`, and the `distance` the
      search route may attach to it. */
  datatype HotelWithBars = HotelWithBars(hotel: Hotel, bars: seq<Bar>, distance: Option<real>)

  /** The `SearchFilters` record: six toggles, a bar type ('' for all) and
      a sort key. */
  datatype Filters = Filters(
    openNow: bool,
    happyHour: bool,
    servesFood: bool,
    rooftop: bool,
    liveMusic: bool,
    outdoorSeating: bool,
    barType: string,
    sortBy: string)

  /** The six boolean fields of `Filters`, under their record keys. */
  datatype FilterKey =
    OpenNowKey | HappyHourKey | ServesFoodKey | RooftopKey | LiveMusicKey | OutdoorSeatingKey

  /** The key's name as the record and the query string spell it. */
  function KeyName(k: FilterKey): string
  {
    match k
    case OpenNowKey => "openNow"
    case HappyHourKey => "happyHour"
    case ServesFoodKey => "servesFood"
    case RooftopKey => "rooftop"
    case LiveMusicKey => "liveMusic"
    case OutdoorSeatingKey => "outdoorSeating"
  }

  /** `filters[key]` for a boolean key. */
  function Flag(f: Filters, k: FilterKey): bool
  {
    match k
    case OpenNowKey => f.openNow
    case HappyHourKey => f.happyHour
    case ServesFoodKey => f.servesFood
    case RooftopKey => f.rooftop
    case LiveMusicKey => f.liveMusic
    case OutdoorSeatingKey => f.outdoorSeating
  }

  /** The filters a search starts from and `clearSearch` restores. */
  const DefaultFilters: Filters :=
    Filters(false, false, false, false, false, false, "", "distance")

  /** The client's `SearchMode`. */
  datatype Mode = Nearby | City
}
