/** The dashboard page: the effect that dispatches the three weather fetches
    for the selected city, the "City not found" guard, and one row per daily
    forecast. The fetches themselves are abstract requests; nothing here
    performs I/O. */
module MainPage {
  import opened Wrappers
  import opened Cities
  import Now

  datatype FetchKind = CurrentConditions | DailyForecast | HourlyForecast

  /** One call of a weather-client trigger with its location key. */
  datatype FetchRequest = FetchRequest(kind: FetchKind, key: string)

  /** What one run of the effect does: dispatch some requests, or stop with a
      TypeError when element 0 of the array is missing (`cityData[0].Key`
      reads a property of `undefined`). */
  datatype EffectRun = Dispatched(requests: seq<FetchRequest>) | TypeError

  /** The forecast payload; each day is passed through unchanged. */
  datatype Forecast<Day> = Forecast(dailyForecasts: seq<Day>)

  /** One rendered forecast row with its React `key` (the index). */
  datatype ForecastRow<Day> = ForecastRow(index: nat, day: Day)

  datatype View<Day> = CityNotFound | Layout(rows: seq<ForecastRow<Day>>)

  /** JavaScript truthiness of an optional string key. */
  predicate Truthy(k: Option<string>) {
    k.Some? && |k.value| > 0
  }

  /** The selection has a first element whose key is a non-empty string. */
  predicate HasUsableKey(cd: CityData) {
    cd.Array? && |cd.items| > 0 && cd.items[0].Some? && Truthy(cd.items[0].value.key)
  }

  /** The three requests of one dispatch, in the order the effect issues them. */
  function AllThree(k: string): (rs: seq<FetchRequest>)
    ensures |rs| == 3
    ensures forall i :: 0 <= i < 3 ==> rs[i].key == k
    ensures rs[0].kind == CurrentConditions && rs[1].kind == DailyForecast && rs[2].kind == HourlyForecast
  {
    [FetchRequest(CurrentConditions, k), FetchRequest(DailyForecast, k), FetchRequest(HourlyForecast, k)]
  }

  /** The effect body: `cityData && cityData.length > 0 && cityData[0].Key`
      guards the three fetches. A single non-array record has no `length`,
      so it dispatches nothing. */
  function PlanFetches(cd: CityData): (r: EffectRun)
    ensures r.TypeError? <==> cd.Array? && |cd.items| > 0 && cd.items[0].None?
    ensures r.Dispatched? && |r.requests| > 0 <==> HasUsableKey(cd)
    ensures HasUsableKey(cd) ==> r == Dispatched(AllThree(cd.items[0].value.key.value))
    ensures r.Dispatched? && !HasUsableKey(cd) ==> r.requests == []
  {
    match cd
    case Absent => Dispatched([])
    case Single(_) => Dispatched([])
    case Array(items) =>
      if |items| == 0 then Dispatched([])
      else match items[0]
        case None => TypeError
        case Some(c) => if Truthy(c.key) then Dispatched(AllThree(c.key.value)) else Dispatched([])
  }

  /** `!cityData || cityData.length === 0`. */
  predicate NotFound(cd: CityData) {
    cd.Absent? || (cd.Array? && |cd.items| == 0)
  }

  /** `days.map((day, index) => row)` with indices counted from `start`. */
  function RowsFrom<Day>(days: seq<Day>, start: nat): (rows: seq<ForecastRow<Day>>)
    ensures |rows| == |days|
    ensures forall i :: 0 <= i < |days| ==> rows[i] == ForecastRow(start + i, days[i])
  {
    if |days| == 0 then []
    else [ForecastRow(start, days[0])] + RowsFrom(days[1..], start + 1)
  }

  /** `forecast && forecast.DailyForecasts.map(...)`: one row per day, in order, none without a forecast. */
  function ForecastRows<Day>(forecast: Option<Forecast<Day>>): (rows: seq<ForecastRow<Day>>)
    ensures forecast.None? ==> rows == []
    ensures forecast.Some? ==> |rows| == |forecast.value.dailyForecasts|
    ensures forecast.Some? ==> forall i :: 0 <= i < |rows| ==>
      rows[i].index == i && rows[i].day == forecast.value.dailyForecasts[i]
  {
    match forecast
    case None => []
    case Some(f) => RowsFrom(f.dailyForecasts, 0)
  }

  /** What the page renders: the message when there is no selection, otherwise the layout. */
  function Render<Day>(cd: CityData, forecast: Option<Forecast<Day>>): (v: View<Day>)
    ensures v.CityNotFound? <==> cd.Absent? || (cd.Array? && |cd.items| == 0)
    ensures v.Layout? ==> v.rows == ForecastRows(forecast)
  {
    if NotFound(cd) then CityNotFound else Layout(ForecastRows(forecast))
  }

  /** When the page says "City not found", the effect issues no request. */
  lemma NotFoundFetchesNothing(cd: CityData)
    requires NotFound(cd)
    ensures PlanFetches(cd) == Dispatched([])
  {
  }

  /** A selection whose first city has a missing or empty key renders the
      layout but issues no request. */
  lemma EmptyKeyRendersWithoutFetching<Day>(c: City, rest: seq<Option<City>>, forecast: Option<Forecast<Day>>)
    requires !Truthy(c.key)
    ensures Render(Array([Some(c)] + rest), forecast).Layout?
    ensures PlanFetches(Array([Some(c)] + rest)) == Dispatched([])
  {
  }

  /** Only the first element of the selection decides the plan. */
  lemma OnlyFirstEntryMatters(x: Option<City>, a: seq<Option<City>>, b: seq<Option<City>>)
    ensures PlanFetches(Array([x] + a)) == PlanFetches(Array([x] + b))
  {
  }

  /** Every request the page dispatches carries the key the card bookmarks under. */
  lemma FetchKeyIsBookmarkKey(cd: CityData)
    requires PlanFetches(cd).Dispatched?
    ensures forall i :: 0 <= i < |PlanFetches(cd).requests| ==>
      Now.CurrentKey(cd) == Some(PlanFetches(cd).requests[i].key)
  {
  }

  /** One request of each kind: a dispatch never repeats or skips a fetch. */
  lemma EachKindOnce(cd: CityData, kind: FetchKind)
    requires HasUsableKey(cd)
    ensures exists i :: 0 <= i < |PlanFetches(cd).requests| && PlanFetches(cd).requests[i].kind == kind
    ensures forall i, j :: 0 <= i < j < |PlanFetches(cd).requests| ==>
      PlanFetches(cd).requests[i].kind != PlanFetches(cd).requests[j].kind
  {
    var rs := PlanFetches(cd).requests;
    match kind
    case CurrentConditions => assert rs[0].kind == kind;
    case DailyForecast => assert rs[1].kind == kind;
    case HourlyForecast => assert rs[2].kind == kind;
  }

  /** Selecting Paris with key "123" dispatches the three fetches for "123". */
  lemma ParisScenario()
    ensures var paris := City(Some("123"), Some("Paris"), Some("France"), None);
      PlanFetches(Array([Some(paris)])) == Dispatched([
        FetchRequest(CurrentConditions, "123"),
        FetchRequest(DailyForecast, "123"),
        FetchRequest(HourlyForecast, "123")])
  {
  }
}
