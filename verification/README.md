# weather-il dashboard core, modelled in Dafny

This project models the decision logic of two React components of the weather
dashboard:

- **Now** (`src/components/main/Now.jsx`), the current-conditions card. It
  normalises the selected `cityData` into an array. It keeps the saved-cities
  list together with the `isBookmarked` flag, recomputes the flag as "some
  saved entry has the current city's `Key`", and toggles the bookmark. The
  remove branch filters out every entry with the current `Key`. The add branch
  appends the current city with a `weather` snapshot. The card also builds the
  weather-icon image name, zero-padded below 10.
- **Main** (`src/components/main/Main.jsx`), the page. Its effect dispatches
  the three weather fetches (current conditions, daily forecast, hourly
  forecast) for the first selected city's key. It shows "City not found" when
  there is no selection, and renders one row per daily forecast.

Modules and files:

| file | module | contents |
|---|---|---|
| wrappers.dfy | `Wrappers` | `Option`, standing for a value JavaScript may leave `undefined` |
| cities.dfy | `Cities` | city record, current-weather payload, the store's `cityData` value |
| now.dfy | `Now` | normalisation, membership, remove/add/toggle, the membership effect, invariants |
| weather_icon.dfy | `WeatherIcon` | icon file name and URL, decimal spelling, and a parser that reads the name back |
| main_page.dfy | `MainPage` | fetch plan, "City not found", forecast rows |

A `Key` is an `Option<string>`, so the source's `?.Key` comparisons stay exact.
`undefined === undefined` holds in JavaScript, so with no current key the remove
branch drops every saved entry that has no `Key`. The store's `cityData` is
`Absent` (`undefined`/`null`), an `Array` whose elements may be missing, or a
`Single` record that is not wrapped in an array.

The two components treat a malformed selection differently, and the model
keeps both behaviours:

- The card wraps `Absent` into `[None]` and a single record into `[Some(c)]`.
- The page does not normalise. A single record has no `length`, so it gets the
  layout and no fetches.
- The page reads `cityData[0].Key` without `?.`. If element 0 of a non-empty
  array is missing, the effect stops with a `TypeError` (`EffectRun.TypeError`)
  instead of skipping the fetches.

## Model

| member | source | states |
|---|---|---|
| Now.Normalise | src/components/main/Now.jsx:20-23 | an array is kept unchanged; any non-array value becomes a one-element array holding that value (a missing value becomes `[undefined]`) |
| Now.First | src/components/main/Now.jsx:29-35 | `cityData[0]` after normalisation: the first array element, a single record itself, and nothing for a missing value or an empty array |
| Now.CurrentKey | src/components/main/Now.jsx:29 | `cityData[0]?.Key` after normalisation: a single record's key, the first array element's key, and no key for a missing value, an empty array or a missing first element |
| Now.IsSaved | src/components/main/Now.jsx:43 | the `some` test is true exactly when some saved entry's key equals the given key |
| Now.Sync | src/components/main/Now.jsx:42-44 | the effect keeps the saved list and sets the flag exactly when some saved entry's key equals `cityData[0]?.Key` |
| Now.SyncEstablishesConsistency | src/components/main/Now.jsx:42-44 | after the effect the flag agrees with membership; on a state where it already agrees, the effect changes nothing |
| Now.RemoveKey | src/components/main/Now.jsx:28-30 | the filter keeps exactly the entries whose key differs, in their original relative order (a subsequence), and its length is the old length minus the number of entries with the key, so every kept entry survives as often as it occurred; the length never grows, and it shrinks exactly when the key was present |
| Now.Snapshot | src/components/main/Now.jsx:35 | the appended record keeps the current city's key and names and carries `weather = currentWeather`; a missing city contributes only `weather` |
| Now.AddEntry | src/components/main/Now.jsx:33-36 | the add branch grows the list by one, leaves the old prefix unchanged, and makes the new last entry exactly the snapshot `{ ...cityData[0], weather: currentWeather }`, so the key is then saved |
| Now.Toggle | src/components/main/Now.jsx:26-39 | a click flips the flag; afterwards the flag equals membership of the current key (true after add, false after remove); remove yields a subsequence and add yields the old list plus one entry |
| Now.SyncAfterToggle | src/components/main/Now.jsx:38-44 | re-running the membership effect after a click leaves the state as the click left it |
| Now.RemoveAbsentKey | src/components/main/Now.jsx:28-30 | filtering out a key no entry carries returns the list unchanged |
| Now.RemoveKeyAppend | src/components/main/Now.jsx:28-30 | the filter distributes over concatenation |
| Now.RemoveKeyKeepsUnique | src/components/main/Now.jsx:28-30 | the filter keeps saved keys unique |
| Now.AddThenRemove | src/components/main/Now.jsx:28-36 | if the current key is not saved, adding the city and then removing its key gives back exactly the original list |
| Now.ToggleTwice | src/components/main/Now.jsx:26-44 | from a state whose flag agrees with membership and is false, two clicks restore both the list and the flag |
| Now.ToggleKeepsInvariant | src/components/main/Now.jsx:26-44 | if keys are unique and the flag agrees with membership, a click keeps both, because add only happens when the key is absent |
| Now.StaleFlagDuplicates | src/components/main/Now.jsx:32-38 | uniqueness depends on the flag: a click with a stale false flag while the city is saved appends a second entry with the same key |
| WeatherIcon.NatToString | src/components/main/Now.jsx:72 | the decimal spelling of a non-negative icon number is all digits, reads back as the number, has a leading zero only for 0, and is one character exactly below 10 |
| WeatherIcon.IntToString | src/components/main/Now.jsx:72 | the spelling of any integer icon: the plain decimal of a non-negative one, a minus sign before the decimal of a negative one, each reading back as the number |
| WeatherIcon.IconFileName | src/components/main/Now.jsx:70-72 | the file name ends in "-s.png"; it starts with "0" when the icon is below 10 and not otherwise |
| WeatherIcon.IconFileNameRoundTrip | src/components/main/Now.jsx:70-72 | for every non-negative icon number the stem has at least two digits and parses back to that number; below 10 it is exactly two digits, so one padding zero |
| WeatherIcon.IconFileNameExamples | src/components/main/Now.jsx:70-72 | 7 gives "07-s.png", 12 gives "12-s.png", and a missing icon gives "undefined-s.png" |
| WeatherIcon.IconUrl | src/components/main/Now.jsx:70-72 | the image address is the provider's files prefix followed by the icon file name: "undefined-s.png" without an icon, and a name that parses back to the icon number for a non-negative one |
| MainPage.AllThree | src/components/main/Main.jsx:24-26 | one dispatch is three requests with the same key: current, forecast, hourly, in that order |
| MainPage.PlanFetches | src/components/main/Main.jsx:22-28 | the effect dispatches the three requests exactly when element 0 has a non-empty key, and nothing otherwise; it throws exactly when element 0 of a non-empty array is missing |
| MainPage.NotFoundFetchesNothing | src/components/main/Main.jsx:23-31 | when the page shows "City not found", no request is dispatched |
| MainPage.EmptyKeyRendersWithoutFetching | src/components/main/Main.jsx:23-34 | a selection whose first city has a missing or empty key renders the layout and dispatches nothing |
| MainPage.OnlyFirstEntryMatters | src/components/main/Main.jsx:23-26 | elements after index 0 never change the plan |
| MainPage.FetchKeyIsBookmarkKey | src/components/main/Main.jsx:23-26 | every dispatched request carries the key the card bookmarks under (`cityData[0]?.Key`) |
| MainPage.EachKindOnce | src/components/main/Main.jsx:24-26 | a dispatch holds each of the three fetch kinds exactly once |
| MainPage.ParisScenario | src/components/main/Main.jsx:22-28 | selecting the city with key "123" dispatches current, forecast and hourly requests for "123" |
| MainPage.RowsFrom | src/components/main/Main.jsx:41-45 | mapping the days gives one row per day, in order, with consecutive indices |
| MainPage.ForecastRows | src/components/main/Main.jsx:40-45 | with a forecast, row i is day i with key i, one row per day; without one, there are no rows |
| MainPage.Render | src/components/main/Main.jsx:30-45 | "City not found" exactly when `cityData` is missing or an empty array; otherwise the layout with the forecast rows |

## Left out

- JSX markup, styling, icons and the loading skeleton: presentation only. The text fields the card shows (names, weather text, date) are not modelled.
- The Redux store and `useLocalStorage`: the selection is a parameter and the saved list is a plain value. JSON persistence and storage failures are not modelled.
- `useTemperature`: the conversion lives in a hook that is not part of this model, so the temperature stays opaque.
- `useWeatherApi` and its HTTP calls: a fetch is an abstract `(kind, key)` request. Responses, failures and how they update the page are not modelled.
- React scheduling: when effects run, the effect dependency lists, and out-of-order completion of fetches. A run of an effect is one call of a pure function.
- `toLocaleDateString`: the result depends on the locale and host environment.
- The `Forecast`, `LaterToday` and `Map` child components: rendering only. A forecast day is an opaque type parameter.
- WeatherIcon.NatToString: spells every number in plain decimal; JavaScript switches to exponent notation from 1e21 ("1e+21"), which the provider's icon numbers (1 to 44) never reach.
- Values of other JavaScript types: a `Key` that is not a string, a `cityData` that is a string or number, an icon that is not an integer. Only the shapes the components are written for are modelled.
- Saved entries that are themselves `null` (possible only in corrupted storage; `city.Key` would throw) are not modelled.
- Spreading a missing `weather` is modelled as an absent `weather` field. JavaScript would instead keep the property, set to `undefined`. No other code here can tell the two apart.
