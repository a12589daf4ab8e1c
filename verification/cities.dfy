/** The records both dashboard components share: the city chosen in the
    store, the current-conditions payload, and the saved (bookmarked) city. */
module Cities {
  import opened Wrappers

  /** The current-conditions payload, reduced to the fields the components read.
      The temperature is left opaque: its conversion lives in a hook outside this model. */
  datatype CurrentWeather = CurrentWeather(weatherText: Option<string>, weatherIcon: Option<int>)

  /** A city record from the geocoding lookup. A saved city is the same record
      with the `weather` snapshot filled in. A missing property is None. */
  datatype City = City(
    key: Option<string>,
    englishName: Option<string>,
    countryName: Option<string>,
    weather: Option<CurrentWeather>)

  /** The `cityData` value held by the store: missing (`undefined`/`null`),
      an array whose elements may themselves be missing, or a single record
      that is not wrapped in an array. */
  datatype CityData = Absent | Array(items: seq<Option<City>>) | Single(city: City)

  /** `x?.Key` for an element that may be missing. */
  function KeyOf(x: Option<City>): Option<string> {
    match x
    case None => None
    case Some(c) => c.key
  }
}
