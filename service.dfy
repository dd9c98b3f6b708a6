/** The business logic of src/aareguru_mcp/service.py that runs after the
    upstream calls: the current/today fallback of `get_current_temperature`,
    the threshold choice of `get_flow_danger_level`, and the aggregation of
    the gathered per-city results in `compare_cities` and `get_forecasts`.
    Upstream responses and the outcome of each gathered fetch are inputs, in
    the order `asyncio.gather` returns them (the order of the cities asked for). */
module Service {
  import opened Wrappers
  import opened Dicts
  import opened Helpers

  // -------------------------------------------------------------- responses

  /** The `aare` part of a `/v2018/current` response, as far as the service
      reads it. */
  datatype AareCurrent = AareCurrent(
    location: Option<string>,
    locationLong: Option<string>,
    temperature: Option<real>,
    temperatureText: Option<string>,
    temperatureTextShort: Option<string>,
    flow: Option<real>,
    flowText: Option<string>,
    flowScaleThreshold: Option<real>,
    forecast2h: Option<real>)

  datatype CurrentResponse = CurrentResponse(aare: Option<AareCurrent>)

  /** A `/v2018/today` response. */
  datatype TodayResponse = TodayResponse(
    aare: Option<real>,
    aarePrec: Option<real>,
    text: Option<string>,
    textShort: Option<string>,
    name: Option<string>,
    longname: Option<string>)

  /** An exception: its class name and its message. */
  datatype ExceptionInfo = ExceptionInfo(typeName: string, message: string)

  /** `f"{type(e).__name__}: {str(e)}"`. */
  function Describe(e: ExceptionInfo): (s: string)
    ensures |s| >= |e.typeName| + 2 && s[..|e.typeName|] == e.typeName
  {
    e.typeName + ": " + e.message
  }

  /** Python truthiness of an optional string. */
  predicate Truthy(s: Option<string>)
  {
    s.Some? && s.value != ""
  }

  // ------------------------------------------------------------ trend, change

  datatype Trend = Rising | Falling | Stable | Unknown

  /** The trend of `fetch_forecast`: the forecast two hours ahead against
      the current temperature. */
  function TrendOf(current: Option<real>, forecast2h: Option<real>): (t: Trend)
    ensures t == Unknown <==> current.None? || forecast2h.None?
    ensures t == Rising <==> current.Some? && forecast2h.Some? && forecast2h.value > current.value
    ensures t == Falling <==> current.Some? && forecast2h.Some? && forecast2h.value < current.value
    ensures t == Stable <==> current.Some? && forecast2h.Some? && forecast2h.value == current.value
  {
    if current.None? || forecast2h.None? then Unknown
    else if forecast2h.value > current.value then Rising
    else if forecast2h.value < current.value then Falling
    else Stable
  }

  /** Swapping the two readings turns rising into falling and back. */
  lemma TrendSwap(a: Option<real>, b: Option<real>)
    ensures TrendOf(a, b) == Rising <==> TrendOf(b, a) == Falling
    ensures TrendOf(a, b) == Stable <==> TrendOf(b, a) == Stable
    ensures TrendOf(a, b) == Unknown <==> TrendOf(b, a) == Unknown
  {
  }

  /** The `change` of `fetch_forecast` as written: it tests both readings
      for truthiness, so a reading of exactly 0.0 °C counts as missing. */
  function ChangeAsWritten(current: Option<real>, forecast2h: Option<real>): (c: Option<real>)
    ensures c.Some? <==> current.Some? && forecast2h.Some? && current.value != 0.0 && forecast2h.value != 0.0
    ensures c.Some? ==> c.value == forecast2h.value - current.value
  {
    if forecast2h.Some? && forecast2h.value != 0.0 && current.Some? && current.value != 0.0 then
      Some(forecast2h.value - current.value)
    else None
  }

  /** The difference the result documents, present whenever both readings
      are, as the trend next to it is. */
  function Change(current: Option<real>, forecast2h: Option<real>): (c: Option<real>)
    ensures c.Some? <==> current.Some? && forecast2h.Some?
    ensures c.Some? ==> c.value == forecast2h.value - current.value
  {
    if current.Some? && forecast2h.Some? then Some(forecast2h.value - current.value) else None
  }

  /** The change and the trend always agree: positive exactly when rising,
      negative exactly when falling, zero exactly when stable, missing exactly
      when the trend is unknown. */
  lemma ChangeAgreesWithTrend(current: Option<real>, forecast2h: Option<real>)
    ensures var t, c := TrendOf(current, forecast2h), Change(current, forecast2h);
      && (t == Unknown <==> c.None?)
      && (t == Rising <==> c.Some? && c.value > 0.0)
      && (t == Falling <==> c.Some? && c.value < 0.0)
      && (t == Stable <==> c.Some? && c.value == 0.0)
  {
  }

  /** As written, a water temperature of 0.0 °C rising to 2.0 °C has a
      rising trend but no change. */
  lemma ChangeAsWrittenDropsZero()
    ensures TrendOf(Some(0.0), Some(2.0)) == Rising
    ensures ChangeAsWritten(Some(0.0), Some(2.0)).None?
    ensures Change(Some(0.0), Some(2.0)) == Some(2.0)
  {
  }

  /** Away from 0.0 °C the two definitions of the change coincide. */
  lemma ChangeAsWrittenAgreesAwayFromZero(current: Option<real>, forecast2h: Option<real>)
    requires current != Some(0.0) && forecast2h != Some(0.0)
    ensures ChangeAsWritten(current, forecast2h) == Change(current, forecast2h)
  {
  }

  // ------------------------------------------------------- flow danger level

  /** The result of `get_flow_danger_level`; the no-data answer has no
      threshold. */
  datatype DangerReport = DangerReport(
    city: string,
    flow: Option<real>,
    flowText: Option<string>,
    threshold: Option<real>,
    assessment: string,
    dangerLevel: nat)

  const NoDataAvailable: string := "No data available"

  /** `get_flow_danger_level(city)` once `get_current` has answered (an
      exception from it propagates): without aare data, level 0 and "No data
      available"; otherwise the city's flow threshold (220 when missing or
      zero) and the helper's assessment of the flow against it. */
  function FlowDangerLevel(city: string, current: Result<CurrentResponse, ExceptionInfo>): (r: Result<DangerReport, ExceptionInfo>)
    ensures current.Err? ==> r == Err(current.error)
    ensures current.Ok? && current.value.aare.None? ==> r == Ok(DangerReport(city, None, None, None, NoDataAvailable, 0))
    ensures current.Ok? && current.value.aare.Some? ==>
      var aare := current.value.aare.value;
      && r.Ok? && r.value.flow == aare.flow && r.value.flowText == aare.flowText
      && r.value.threshold == Some(EffectiveThreshold(aare.flowScaleThreshold))
      && r.value.assessment == SafetyAssessment(aare.flow, EffectiveThreshold(aare.flowScaleThreshold)).text
      && r.value.dangerLevel == SafetyAssessment(aare.flow, EffectiveThreshold(aare.flowScaleThreshold)).level
  {
    if current.Err? then Err(current.error)
    else if current.value.aare.None? then Ok(DangerReport(city, None, None, None, NoDataAvailable, 0))
    else
      var aare := current.value.aare.value;
      var threshold := EffectiveThreshold(aare.flowScaleThreshold);
      var assessment := SafetyAssessment(aare.flow, threshold);
      Ok(DangerReport(city, aare.flow, aare.flowText, Some(threshold), assessment.text, assessment.level))
  }

  /** The danger level is in 0..5; it is 0 exactly when there is no flow
      reading, and the text tells apart a missing aare record from a missing
      flow. A city without a threshold of its own is banded at 220 m³/s. */
  lemma {:induction false} DangerLevelRange(city: string, current: CurrentResponse)
    ensures var r := FlowDangerLevel(city, Ok(current)).value;
      && r.dangerLevel <= 5
      && (r.dangerLevel == 0 <==> current.aare.None? || current.aare.value.flow.None?)
      && (current.aare.None? <==> r.assessment == NoDataAvailable)
      && ((current.aare.Some? && current.aare.value.flowScaleThreshold in {None, Some(0.0)})
            ==> r.threshold == Some(220.0))
  {
    if current.aare.Some? {
      var a := SafetyAssessment(current.aare.value.flow, EffectiveThreshold(current.aare.value.flowScaleThreshold));
      assert a.text in AssessmentTexts;
      assert NoDataAvailable !in AssessmentTexts;
    }
  }

  // ------------------------------------------------- current temperature

  /** The result of `get_current_temperature`. */
  datatype TemperatureReport = TemperatureReport(
    city: string,
    temperature: Option<real>,
    temperatureText: Option<string>,
    swissGermanExplanation: Option<string>,
    name: Option<string>,
    warning: Option<string>,
    suggestion: Option<Suggestion>,
    seasonalAdvice: string,
    temperaturePrec: Option<real>,
    temperatureTextShort: Option<string>,
    longname: Option<string>)

  /** `get_current_temperature(city)`. `current` and `today` are what
      `get_current` and `get_today` answer (the latter is asked only when the
      former has no aare data), `cities` what the suggestion's `get_cities`
      answers (`None`: it raised), `month` the clock's month. */
  method GetCurrentTemperature(city: string, current: Result<CurrentResponse, ExceptionInfo>,
                               today: Result<TodayResponse, ExceptionInfo>,
                               cities: Option<seq<CityListItem>>, month: int)
    returns (r: Result<TemperatureReport, ExceptionInfo>)
    ensures current.Err? ==> r == Err(current.error)
    ensures current.Ok? && current.value.aare.None? && today.Err? ==> r == Err(today.error)
    ensures current.Ok? && current.value.aare.Some? ==>
      var aare := current.value.aare.value;
      && r.Ok? && r.value.temperature == aare.temperature && r.value.temperatureText == aare.temperatureText
      && r.value.warning == CheckSafetyWarning(aare.flow, Some(220.0))
      && r.value.name == aare.location
      && r.value.temperaturePrec == aare.temperature
      && r.value.temperatureTextShort == aare.temperatureTextShort && r.value.longname == aare.locationLong
    ensures current.Ok? && current.value.aare.None? && today.Ok? ==>
      var t := today.value;
      && r.Ok? && r.value.temperature == t.aare && r.value.temperatureText == t.text
      && r.value.warning.None?
      && r.value.name == t.name
      && r.value.temperaturePrec == t.aarePrec && r.value.temperatureTextShort == t.textShort && r.value.longname == t.longname
    ensures r.Ok? ==>
      && r.value.city == city
      && r.value.swissGermanExplanation == SwissGermanExplanation(r.value.temperatureText)
      && IsWarmerSuggestion(city, r.value.temperature, cities, r.value.suggestion)
      && r.value.seasonalAdvice == SeasonalAdvice(month)
  {
    if current.Err? {
      return Err(current.error);
    }
    var temp: Option<real>, text: Option<string>, flow: Option<real>;
    var name: Option<string>, prec: Option<real>, textShort: Option<string>, longname: Option<string>;
    if current.value.aare.None? {
      if today.Err? {
        return Err(today.error);
      }
      var t := today.value;
      temp, text, flow := t.aare, t.text, None;
      name := t.name;
      prec, textShort, longname := t.aarePrec, t.textShort, t.longname;
    } else {
      var aare := current.value.aare.value;
      temp, text, flow := aare.temperature, aare.temperatureText, aare.flow;
      name := aare.location;
      prec, textShort, longname := aare.temperature, aare.temperatureTextShort, aare.locationLong;
    }
    var warning := CheckSafetyWarning(flow, Some(220.0));
    var explanation := SwissGermanExplanation(text);
    var suggestion := WarmerSuggestion(city, temp, cities);
    var advice := SeasonalAdvice(month);
    r := Ok(TemperatureReport(city, temp, text, explanation, name, warning, suggestion, advice, prec, textShort, longname));
  }

  /** The warning of `get_current_temperature` is banded at the default 220
      m³/s, not at the city's own threshold: a flow of 250 m³/s draws a
      caution even where `get_flow_danger_level` uses a threshold of 260 and
      rates it only level 2. */
  lemma CurrentWarningIgnoresCityThreshold()
    ensures CheckSafetyWarning(Some(250.0), Some(220.0)) == Some(Caution)
    ensures FlowDangerLevel("bern", Ok(CurrentResponse(Some(AareCurrent(None, None, None, None, None, Some(250.0), None, Some(260.0), None))))).value.dangerLevel == 2
  {
  }

  // ------------------------------------------------------- compare_cities

  /** What `asyncio.gather(..., return_exceptions=True)` yields for one city:
      the dictionary the fetch coroutine returned, or an exception that
      escaped it. */
  datatype Gathered<T> = Escaped(exception: ExceptionInfo) | Returned(item: T)

  /** The dictionary `fetch_conditions` returns. */
  datatype ConditionsItem = ConditionsItem(city: string, result: Option<CurrentResponse>, error: Option<string>)

  /** `fetch_conditions(city)`, given how `get_current` ended: a response, or
      the exception it raised, caught and described. */
  function FetchConditions(city: string, response: Result<CurrentResponse, ExceptionInfo>): (item: ConditionsItem)
    ensures item.city == city
    ensures item.result.Some? <==> response.Ok?
    ensures response.Ok? ==> item.result.value == response.value && item.error.None?
    ensures response.Err? ==> Truthy(item.error)
  {
    match response
    case Ok(value) => ConditionsItem(city, Some(value), None)
    case Err(e) => ConditionsItem(city, None, Some(Describe(e)))
  }

  /** One entry of `city_data`. */
  datatype CityRow = CityRow(
    city: string,
    temperature: Option<real>,
    flow: Option<real>,
    safe: bool,
    temperatureText: Option<string>,
    location: Option<string>)

  /** One entry of `errors`. */
  datatype ErrorEntry = ErrorEntry(city: string, error: string)

  /** `flow < 150 if flow else True`: a missing (or zero) flow counts as safe. */
  function IsSafe(flow: Option<real>): (safe: bool)
    ensures safe <==> flow.None? || flow.value < 150.0
  {
    if flow.Some? && flow.value != 0.0 then flow.value < 150.0 else true
  }

  datatype Filed = Success(row: CityRow) | Failure(entry: ErrorEntry)

  /** Where the loop of `compare_cities` files one gathered result. */
  function FileConditions(g: Gathered<ConditionsItem>): (f: Filed)
    ensures f.Success? <==>
      (g.Returned? && !Truthy(g.item.error) && g.item.result.Some? && g.item.result.value.aare.Some?)
    ensures f.Success? ==>
      var a := g.item.result.value.aare.value;
      && f.row.city == g.item.city && f.row.temperature == a.temperature && f.row.flow == a.flow
      && f.row.safe == IsSafe(a.flow)
    ensures f.Failure? ==> f.entry.error != [] && (g.Returned? ==> f.entry.city == g.item.city)
  {
    match g
    case Escaped(e) => Failure(ErrorEntry("unknown", Describe(e)))
    case Returned(item) =>
      if Truthy(item.error) then Failure(ErrorEntry(item.city, item.error.value))
      else if item.result.None? then Failure(ErrorEntry(item.city, "No data returned"))
      else if item.result.value.aare.None? then Failure(ErrorEntry(item.city, "No aare data available"))
      else
        var a := item.result.value.aare.value;
        Success(CityRow(item.city, a.temperature, a.flow, IsSafe(a.flow), a.temperatureText, a.location))
  }

  /** The rows the loop appends to `city_data`, in gathered order: exactly
      the rows of the results filed as successes. */
  function Successes(gs: seq<Gathered<ConditionsItem>>): (rows: seq<CityRow>)
    ensures forall row :: row in rows <==> exists i :: 0 <= i < |gs| && FileConditions(gs[i]) == Success(row)
  {
    if gs == [] then []
    else
      var pre, f := gs[..|gs| - 1], FileConditions(gs[|gs| - 1]);
      assert forall i :: 0 <= i < |pre| ==> pre[i] == gs[i];
      Successes(pre) + if f.Success? then [f.row] else []
  }

  /** The entries the loop appends to `errors`, in gathered order: exactly the
      entries of the results filed as failures. */
  function Failures(gs: seq<Gathered<ConditionsItem>>): (es: seq<ErrorEntry>)
    ensures forall e :: e in es <==> exists i :: 0 <= i < |gs| && FileConditions(gs[i]) == Failure(e)
  {
    if gs == [] then []
    else
      var pre, f := gs[..|gs| - 1], FileConditions(gs[|gs| - 1]);
      assert forall i :: 0 <= i < |pre| ==> pre[i] == gs[i];
      Failures(pre) + if f.Failure? then [f.entry] else []
  }

  /** Every gathered result lands in exactly one of the two lists. */
  lemma {:induction false} EveryResultFiledOnce(gs: seq<Gathered<ConditionsItem>>)
    ensures |Successes(gs)| + |Failures(gs)| == |gs|
  {
    if gs != [] {
      EveryResultFiledOnce(gs[..|gs| - 1]);
    }
  }

  /** A city whose `get_current` raised is reported among the errors under its
      own name, with the exception described. */
  lemma FailedFetchIsReported(city: string, e: ExceptionInfo)
    ensures FileConditions(Returned(FetchConditions(city, Err(e)))) == Failure(ErrorEntry(city, Describe(e)))
  {
  }

  /** The sort key `x["temperature"] or 0`. */
  function SortKey(row: CityRow): real
  {
    if row.temperature.Some? then row.temperature.value else 0.0
  }

  predicate WarmestFirst(rows: seq<CityRow>)
  {
    forall i, j :: 0 <= i < j < |rows| ==> SortKey(rows[i]) >= SortKey(rows[j])
  }

  /** A row at least as warm as every row of a warmest-first list may lead it. */
  lemma PrependWarmest(h: CityRow, rows: seq<CityRow>)
    requires WarmestFirst(rows)
    requires forall k :: 0 <= k < |rows| ==> SortKey(rows[k]) <= SortKey(h)
    ensures WarmestFirst([h] + rows)
  {
    forall i, j | 0 <= i < j < |[h] + rows|
      ensures SortKey(([h] + rows)[i]) >= SortKey(([h] + rows)[j])
    {
      if i > 0 {
        assert ([h] + rows)[i] == rows[i - 1];
      }
      assert ([h] + rows)[j] == rows[j - 1];
    }
  }

  /** Inserts `x` before the first row that is not warmer than it. */
  function InsertByKey(x: CityRow, rows: seq<CityRow>): (r: seq<CityRow>)
    requires WarmestFirst(rows)
    ensures WarmestFirst(r)
    ensures multiset(r) == multiset(rows) + multiset{x}
  {
    if rows == [] || SortKey(rows[0]) <= SortKey(x) then
      PrependWarmest(x, rows);
      [x] + rows
    else
      var rest := InsertByKey(x, rows[1..]);
      assert rows == [rows[0]] + rows[1..];
      forall k | 0 <= k < |rest| ensures SortKey(rest[k]) <= SortKey(rows[0]) {
        assert rest[k] in multiset(rest);
        assert rest[k] == x || rest[k] in multiset(rows[1..]);
      }
      PrependWarmest(rows[0], rest);
      [rows[0]] + rest
  }

  /** `city_data.sort(key=..., reverse=True)`: warmest first, stable. */
  function SortWarmestFirst(rows: seq<CityRow>): (r: seq<CityRow>)
    ensures WarmestFirst(r)
    ensures multiset(r) == multiset(rows)
  {
    if rows == [] then []
    else
      assert rows == [rows[0]] + rows[1..];
      InsertByKey(rows[0], SortWarmestFirst(rows[1..]))
  }

  /** The rows whose sort key is `t`, in order. */
  function WithKey(rows: seq<CityRow>, t: real): seq<CityRow>
  {
    if rows == [] then []
    else (if SortKey(rows[0]) == t then [rows[0]] else []) + WithKey(rows[1..], t)
  }

  lemma {:induction false} InsertKeepsTies(x: CityRow, rows: seq<CityRow>, t: real)
    requires WarmestFirst(rows)
    ensures WithKey(InsertByKey(x, rows), t) == (if SortKey(x) == t then [x] else []) + WithKey(rows, t)
  {
    var r := InsertByKey(x, rows);
    if rows == [] || SortKey(rows[0]) <= SortKey(x) {
      assert r == [x] + rows;
      assert r[0] == x && r[1..] == rows;
    } else {
      var rest := InsertByKey(x, rows[1..]);
      assert r == [rows[0]] + rest;
      assert r[0] == rows[0] && r[1..] == rest;
      InsertKeepsTies(x, rows[1..], t);
      assert WithKey(rows, t) == (if SortKey(rows[0]) == t then [rows[0]] else []) + WithKey(rows[1..], t);
      assert SortKey(x) == t ==> SortKey(rows[0]) != t;
    }
  }

  /** The sort is stable: rows with equal temperatures keep their order. */
  lemma {:induction false} SortIsStable(rows: seq<CityRow>, t: real)
    ensures WithKey(SortWarmestFirst(rows), t) == WithKey(rows, t)
  {
    if rows != [] {
      SortIsStable(rows[1..], t);
      InsertKeepsTies(rows[0], SortWarmestFirst(rows[1..]), t);
    }
  }

  /** `sum(1 for c in rows if c["safe"])`. */
  function CountSafe(rows: seq<CityRow>): (n: nat)
    ensures n <= |rows|
  {
    if rows == [] then 0 else (if rows[0].safe then 1 else 0) + CountSafe(rows[1..])
  }

  lemma {:induction false} CountSafeInsert(x: CityRow, rows: seq<CityRow>)
    requires WarmestFirst(rows)
    ensures CountSafe(InsertByKey(x, rows)) == (if x.safe then 1 else 0) + CountSafe(rows)
  {
    if rows == [] || SortKey(rows[0]) <= SortKey(x) {
      assert ([x] + rows)[1..] == rows;
    } else {
      var rest := InsertByKey(x, rows[1..]);
      assert ([rows[0]] + rest)[1..] == rest;
      CountSafeInsert(x, rows[1..]);
    }
  }

  /** Sorting does not change how many rows are safe. */
  lemma {:induction false} CountSafeSorted(rows: seq<CityRow>)
    ensures CountSafe(SortWarmestFirst(rows)) == CountSafe(rows)
  {
    if rows != [] {
      CountSafeSorted(rows[1..]);
      CountSafeInsert(rows[0], SortWarmestFirst(rows[1..]));
    }
  }

  /** `f"{e['city']}: {e['error']}"`. */
  function ErrorLine(e: ErrorEntry): string
  {
    e.city + ": " + e.error
  }

  /** `"; ".join(...)` of the error lines. */
  function JoinLines(es: seq<ErrorEntry>): (s: string)
    ensures s == [] <==> es == []
  {
    if es == [] then ""
    else if |es| == 1 then ErrorLine(es[0])
    else ErrorLine(es[0]) + "; " + JoinLines(es[1..])
  }

  /** The summary put into the message when every city failed: the first
      three errors at most. */
  function ErrorSummary(errors: seq<ErrorEntry>): (s: string)
    ensures s == [] <==> errors == []
    ensures |errors| <= 3 ==> s == JoinLines(errors)
  {
    var n := if |errors| < 3 then |errors| else 3;
    assert |errors| <= 3 ==> errors[..n] == errors;
    JoinLines(errors[..n])
  }

  /** Errors after the third never reach the summary. */
  lemma SummaryIgnoresLaterErrors(errors: seq<ErrorEntry>, more: seq<ErrorEntry>)
    requires |errors| >= 3
    ensures ErrorSummary(errors + more) == ErrorSummary(errors)
  {
    assert (errors + more)[..3] == errors[..3];
  }

  lemma OccursAfterPrefix(prefix: string, text: string, phrase: string, i: int)
    requires OccursAt(text, phrase, i)
    ensures OccursAt(prefix + text, phrase, |prefix| + i)
  {
    assert (prefix + text)[|prefix| + i..|prefix| + i + |phrase|] == text[i..i + |phrase|];
  }

  lemma {:induction false} JoinMentionsEach(es: seq<ErrorEntry>, i: nat)
    requires i < |es|
    ensures Contains(JoinLines(es), ErrorLine(es[i]))
  {
    var line := ErrorLine(es[0]);
    if |es| == 1 {
      assert OccursAt(JoinLines(es), line, 0);
    } else if i == 0 {
      assert JoinLines(es)[..|line|] == line;
      assert OccursAt(JoinLines(es), line, 0);
    } else {
      JoinMentionsEach(es[1..], i - 1);
      var rest := JoinLines(es[1..]);
      var j :| 0 <= j <= |rest| && OccursAt(rest, ErrorLine(es[i]), j);
      assert JoinLines(es) == (line + "; ") + rest;
      OccursAfterPrefix(line + "; ", rest, ErrorLine(es[i]), j);
    }
  }

  /** Each of the first three errors (or fewer) appears in the summary. */
  lemma SummaryMentionsFirstErrors(errors: seq<ErrorEntry>, i: nat)
    requires i < |errors| && i < 3
    ensures Contains(ErrorSummary(errors), ErrorLine(errors[i]))
  {
    var n := if |errors| < 3 then |errors| else 3;
    JoinMentionsEach(errors[..n], i);
  }

  /** The result of `compare_cities`. */
  datatype Comparison = Comparison(
    cities: seq<CityRow>,
    warmest: Option<CityRow>,
    coldest: Option<CityRow>,
    safeCount: nat,
    totalCount: nat,
    requestedCount: nat,
    errors: Option<seq<ErrorEntry>>)

  /** The `RuntimeError` raised when every city failed: how many cities were
      asked for and the summary of the first errors. */
  datatype AllFailed = AllFailed(requestedCount: nat, summary: string)

  /** The cities compared: the given list when there is one (`cities is None`
      is the only test, so an empty list stays empty), otherwise the
      identifiers of the listed cities, in listing order. */
  function RequestedCities(cities: Option<seq<string>>, listing: seq<CityListItem>): (r: seq<string>)
    ensures cities.Some? ==> r == cities.value
    ensures cities.None? ==> |r| == |listing| && forall i :: 0 <= i < |r| ==> r[i] == listing[i].city
    ensures r == [] <==> cities == Some([]) || (cities.None? && listing == [])
  {
    if cities.Some? then cities.value else seq(|listing|, i requires 0 <= i < |listing| => listing[i].city)
  }

  /** The loop of `compare_cities` over the gathered results: each result is
      appended to `city_data` or to `errors`. */
  method FileComparisonResults(results: seq<Gathered<ConditionsItem>>)
    returns (cityData: seq<CityRow>, errors: seq<ErrorEntry>)
    ensures cityData == Successes(results)
    ensures errors == Failures(results)
  {
    cityData, errors := [], [];
    for k := 0 to |results|
      invariant cityData == Successes(results[..k])
      invariant errors == Failures(results[..k])
    {
      assert results[..k + 1][..k] == results[..k];
      var g := results[k];
      if g.Escaped? {
        errors := errors + [ErrorEntry("unknown", Describe(g.exception))];
        continue;
      }
      var item := g.item;
      if Truthy(item.error) {
        errors := errors + [ErrorEntry(item.city, item.error.value)];
        continue;
      }
      if item.result.None? {
        errors := errors + [ErrorEntry(item.city, "No data returned")];
        continue;
      }
      if item.result.value.aare.None? {
        errors := errors + [ErrorEntry(item.city, "No aare data available")];
        continue;
      }
      var aare := item.result.value.aare.value;
      cityData := cityData + [CityRow(item.city, aare.temperature, aare.flow, IsSafe(aare.flow), aare.temperatureText, aare.location)];
    }
    assert results[..|results|] == results;
  }

  /** `compare_cities` after the fan-out: `results[i]` is what gathering the
      fetch of `requested[i]` gave. */
  method CompareCities(requested: seq<string>, results: seq<Gathered<ConditionsItem>>)
    returns (r: Result<Comparison, AllFailed>)
    requires |results| == |requested|
    ensures r.Err? <==> Successes(results) == [] && |requested| > 0
    ensures r.Err? ==> r.error == AllFailed(|requested|, ErrorSummary(Failures(results)))
    ensures r.Ok? ==>
      var c, ok := r.value, Successes(results);
      && c.cities == SortWarmestFirst(ok)
      && WarmestFirst(c.cities) && multiset(c.cities) == multiset(ok)
      && (forall t :: WithKey(c.cities, t) == WithKey(ok, t))
      && c.warmest == (if ok == [] then None else Some(c.cities[0]))
      && c.coldest == (if ok == [] then None else Some(c.cities[|c.cities| - 1]))
      && c.safeCount == CountSafe(ok) <= c.totalCount
      && c.totalCount == |ok|
      && c.requestedCount == |requested| == c.totalCount + |Failures(results)|
      && c.errors == (if Failures(results) == [] then None else Some(Failures(results)))
    ensures requested == [] ==> r == Ok(Comparison([], None, None, 0, 0, 0, None))
  {
    var cityData, errors := FileComparisonResults(results);
    EveryResultFiledOnce(results);
    ghost var ok := cityData;
    if cityData != [] {
      cityData := SortWarmestFirst(cityData);
    }
    forall t ensures WithKey(cityData, t) == WithKey(ok, t) {
      SortIsStable(ok, t);
    }
    CountSafeSorted(ok);
    assert |cityData| == |multiset(cityData)| == |multiset(ok)| == |ok|;
    var successCount := |cityData|;
    var totalCount := |requested|;
    if successCount == 0 && totalCount > 0 {
      return Err(AllFailed(totalCount, ErrorSummary(errors)));
    }
    r := Ok(Comparison(
      cityData,
      if cityData != [] then Some(cityData[0]) else None,
      if cityData != [] then Some(cityData[|cityData| - 1]) else None,
      CountSafe(cityData),
      successCount,
      totalCount,
      if errors != [] then Some(errors) else None));
  }

  // -------------------------------------------------------- get_forecasts

  /** The `result` dictionary of `fetch_forecast`. */
  datatype ForecastResult = ForecastResult(current: Option<real>, forecast2h: Option<real>, trend: Trend, change: Option<real>)

  /** The dictionary `fetch_forecast` returns. */
  datatype ForecastItem = ForecastItem(city: string, result: Option<ForecastResult>, error: Option<string>)

  /** `fetch_forecast(city)`, given how `get_current` ended. The change is the
      corrected `Change` (see `ChangeAsWritten`). */
  function FetchForecast(city: string, response: Result<CurrentResponse, ExceptionInfo>): (item: ForecastItem)
    ensures item.city == city
    ensures item.result.Some? <==> response.Ok? && response.value.aare.Some?
    ensures item.result.None? <==> Truthy(item.error)
    ensures item.result.Some? ==>
      var a := response.value.aare.value;
      && item.result.value.current == a.temperature && item.result.value.forecast2h == a.forecast2h
      && item.result.value.trend == TrendOf(a.temperature, a.forecast2h)
      && item.result.value.change == Change(a.temperature, a.forecast2h)
  {
    if response.Err? then ForecastItem(city, None, Some(Describe(response.error)))
    else if response.value.aare.None? then ForecastItem(city, None, Some("No aare data available"))
    else
      var a := response.value.aare.value;
      ForecastItem(city, Some(ForecastResult(a.temperature, a.forecast2h, TrendOf(a.temperature, a.forecast2h),
                                             Change(a.temperature, a.forecast2h))), None)
  }

  /** The gathered items of cities `cities`, fetched in order. */
  function FetchAllForecasts(cities: seq<string>, responses: seq<Result<CurrentResponse, ExceptionInfo>>): (gs: seq<Gathered<ForecastItem>>)
    requires |responses| == |cities|
    ensures |gs| == |cities|
    ensures forall i :: 0 <= i < |gs| ==> gs[i].Returned? && gs[i].item.city == cities[i]
    ensures forall i :: 0 <= i < |gs| ==>
      (Stored(gs[i]) <==> responses[i].Ok? && responses[i].value.aare.Some?)
    ensures forall i :: 0 <= i < |gs| ==> Stored(gs[i]) || Truthy(gs[i].item.error)
  {
    seq(|cities|, i requires 0 <= i < |cities| => Returned(FetchForecast(cities[i], responses[i])))
  }

  /** Whether the loop of `get_forecasts` stores this item's result. */
  predicate Stored(g: Gathered<ForecastItem>)
  {
    g.Returned? && !Truthy(g.item.error) && g.item.result.Some?
  }

  /** The `forecasts` dictionary after the loop: `forecasts[city] = result`
      for every stored item, in order. */
  function CollectForecasts(gs: seq<Gathered<ForecastItem>>): (d: Dict<string, ForecastResult>)
    ensures DistinctKeys(d)
  {
    if gs == [] then []
    else
      var d := CollectForecasts(gs[..|gs| - 1]);
      var g := gs[|gs| - 1];
      if Stored(g) then Set(d, g.item.city, g.item.result.value) else d
  }

  /** The entry the loop of `get_forecasts` appends to `errors` for one
      gathered item, if any. */
  function ForecastFailure(g: Gathered<ForecastItem>): (e: Option<ErrorEntry>)
    ensures e.Some? <==> g.Escaped? || Truthy(g.item.error)
    ensures e.Some? && g.Returned? ==> e.value.city == g.item.city
  {
    match g
    case Escaped(x) => Some(ErrorEntry("unknown", Describe(x)))
    case Returned(item) => if Truthy(item.error) then Some(ErrorEntry(item.city, item.error.value)) else None
  }

  /** The `errors` list after the loop: exactly the failures of the gathered
      items, in order. */
  function ForecastFailures(gs: seq<Gathered<ForecastItem>>): (es: seq<ErrorEntry>)
    ensures |es| <= |gs|
    ensures forall e :: e in es <==> exists i :: 0 <= i < |gs| && ForecastFailure(gs[i]) == Some(e)
  {
    if gs == [] then []
    else
      var pre, f := gs[..|gs| - 1], ForecastFailure(gs[|gs| - 1]);
      assert forall i :: 0 <= i < |pre| ==> pre[i] == gs[i];
      ForecastFailures(pre) + if f.Some? then [f.value] else []
  }

  /** `fetch_forecast` catches every exception, so nothing escapes the gather
      and the `isinstance(item, Exception)` branch of the loop is never taken:
      every error is reported under a city that was asked for. */
  lemma NoForecastEscapes(cities: seq<string>, responses: seq<Result<CurrentResponse, ExceptionInfo>>)
    requires |responses| == |cities|
    ensures var gs := FetchAllForecasts(cities, responses);
      forall e :: e in ForecastFailures(gs) ==> e.city in cities
  {
    var gs := FetchAllForecasts(cities, responses);
    forall e | e in ForecastFailures(gs) ensures e.city in cities {
      var i :| 0 <= i < |gs| && ForecastFailure(gs[i]) == Some(e);
      assert gs[i].Returned? && gs[i].item.city == cities[i];
    }
  }

  /** The result of the last stored item for `city`, if any. */
  function LastStored(gs: seq<Gathered<ForecastItem>>, city: string): Option<ForecastResult>
  {
    if gs == [] then None
    else
      var g := gs[|gs| - 1];
      if Stored(g) && g.item.city == city then Some(g.item.result.value) else LastStored(gs[..|gs| - 1], city)
  }

  /** Duplicate cities collapse into one entry, and the later result wins:
      the dictionary maps each city to the result of its last stored item, and
      has no entry for a city without one. */
  lemma {:induction false} CollectKeepsLastResult(gs: seq<Gathered<ForecastItem>>, city: string)
    ensures Get(CollectForecasts(gs), city) == LastStored(gs, city)
  {
    if gs != [] {
      CollectKeepsLastResult(gs[..|gs| - 1], city);
    }
  }

  /** The dictionary and the error list together never hold more entries than
      there were results: a result that is neither stored nor failed (no
      error, no data) is dropped, and duplicates collapse. */
  lemma {:induction false} ForecastCountBound(gs: seq<Gathered<ForecastItem>>)
    ensures |CollectForecasts(gs)| + |ForecastFailures(gs)| <= |gs|
  {
    if gs != [] {
      var pre := gs[..|gs| - 1];
      ForecastCountBound(pre);
      var d := CollectForecasts(pre);
      var g := gs[|gs| - 1];
      if Stored(g) {
        var d' := Set(d, g.item.city, g.item.result.value);
        assert |d'| == |Keys(d')| && |d| == |Keys(d)|;
      }
    }
  }

  lemma {:induction false} LastStoredAbsent(gs: seq<Gathered<ForecastItem>>, city: string)
    requires forall i :: 0 <= i < |gs| && gs[i].Returned? ==> gs[i].item.city != city
    ensures LastStored(gs, city).None?
  {
    if gs != [] {
      LastStoredAbsent(gs[..|gs| - 1], city);
    }
  }

  /** When each of `n` distinct cities is fetched by `fetch_forecast`, every
      city ends up either in the dictionary or in the errors. */
  lemma {:induction false} ForecastAccounting(cities: seq<string>, responses: seq<Result<CurrentResponse, ExceptionInfo>>)
    requires |responses| == |cities|
    requires forall i, j :: 0 <= i < j < |cities| ==> cities[i] != cities[j]
    ensures var gs := FetchAllForecasts(cities, responses);
      |CollectForecasts(gs)| + |ForecastFailures(gs)| == |cities|
  {
    var gs := FetchAllForecasts(cities, responses);
    if cities != [] {
      var n := |cities| - 1;
      var pre := FetchAllForecasts(cities[..n], responses[..n]);
      assert pre == gs[..n];
      ForecastAccounting(cities[..n], responses[..n]);
      var g := gs[n];
      if Stored(g) {
        var d := CollectForecasts(pre);
        LastStoredAbsent(pre, cities[n]);
        CollectKeepsLastResult(pre, cities[n]);
        var d' := Set(d, cities[n], g.item.result.value);
        assert |d'| == |Keys(d')| && |d| == |Keys(d)|;
      }
    }
  }

  /** The result of `get_forecasts`. */
  datatype ForecastSummary = ForecastSummary(
    forecasts: Dict<string, ForecastResult>,
    successCount: nat,
    requestedCount: nat,
    errors: Option<seq<ErrorEntry>>)

  /** The loop of `get_forecasts` over the gathered results. */
  method FileForecastResults(results: seq<Gathered<ForecastItem>>)
    returns (forecasts: Dict<string, ForecastResult>, errors: seq<ErrorEntry>)
    ensures forecasts == CollectForecasts(results)
    ensures errors == ForecastFailures(results)
  {
    forecasts, errors := [], [];
    for k := 0 to |results|
      invariant forecasts == CollectForecasts(results[..k])
      invariant errors == ForecastFailures(results[..k])
    {
      assert results[..k + 1][..k] == results[..k];
      var g := results[k];
      if g.Escaped? {
        errors := errors + [ErrorEntry("unknown", Describe(g.exception))];
        continue;
      }
      var item := g.item;
      if Truthy(item.error) {
        errors := errors + [ErrorEntry(item.city, item.error.value)];
        continue;
      }
      if item.result.Some? {
        forecasts := Set(forecasts, item.city, item.result.value);
      }
    }
    assert results[..|results|] == results;
  }

  /** `get_forecasts` after the fan-out: `results[i]` is what gathering the
      forecast fetch of `requested[i]` gave. */
  method GetForecasts(requested: seq<string>, results: seq<Gathered<ForecastItem>>)
    returns (r: Result<ForecastSummary, AllFailed>)
    requires |results| == |requested|
    ensures r.Err? <==> CollectForecasts(results) == [] && |requested| > 0
    ensures r.Err? ==> r.error == AllFailed(|requested|, ErrorSummary(ForecastFailures(results)))
    ensures r.Ok? ==>
      var f := r.value;
      && f.forecasts == CollectForecasts(results)
      && (forall city :: Get(f.forecasts, city) == LastStored(results, city))
      && f.successCount == |f.forecasts|
      && f.requestedCount == |requested|
      && f.successCount + |ForecastFailures(results)| <= f.requestedCount
      && f.errors == (if ForecastFailures(results) == [] then None else Some(ForecastFailures(results)))
    ensures requested == [] ==> r == Ok(ForecastSummary([], 0, 0, None))
  {
    var forecasts, errors := FileForecastResults(results);
    forall city ensures Get(forecasts, city) == LastStored(results, city) {
      CollectKeepsLastResult(results, city);
    }
    ForecastCountBound(results);
    var successCount := |forecasts|;
    var totalCount := |requested|;
    if successCount == 0 && totalCount > 0 {
      return Err(AllFailed(totalCount, ErrorSummary(errors)));
    }
    r := Ok(ForecastSummary(forecasts, successCount, totalCount, if errors != [] then Some(errors) else None));
  }
}
