# aareguru-mcp core, modelled in Dafny

This project models the core of the Aareguru MCP server. The server answers questions about the Aare river (water temperature, flow, forecasts) from the Aareguru API. Three parts are modelled and proved:

- **API client** (`client.py`). An in-memory cache maps a request key to an entry (data and an expiry instant). Lookups evict expired entries lazily. A throttle keeps dispatched upstream requests at least `min_request_interval_seconds` apart. `_request` chains identification, key, cache check, throttle, fetch and cache store. The cache key is the endpoint followed by the URL-encoded, sorted query parameters. The model encodes parameters exactly as the client does (`quote_plus` escaping, including UTF-8), and proves that the key depends on the set of parameters and not on their order, and that different values give different keys.
- **Service layer** (`service.py`). Covers the current/today fallback of `get_current_temperature` and the threshold choice of `get_flow_danger_level`. Also covers the loops of `compare_cities` and `get_forecasts`, which file the gathered per-city results into successes and errors. `compare_cities` then ranks cities warmest first with a stable sort. Both raise only when every city failed.
- **Helpers** (`helpers.py`). Seasonal advice by month, the two flow-rate classifiers, the first-match Swiss German phrase lookup, and the choice of a warmer city.

Modules:

- `Wrappers`: `Option`, `Result`.
- `Dicts`: an insertion-ordered dictionary as a sequence of pairs with distinct keys.
- `UrlEncoding`: `quote_plus` and `urlencode`.
- `CacheKeys`: Python's ordering of item pairs, `sorted`, and the key itself.
- `Client`: `CacheEntry`, the throttle, `_request` as a function of the client state, and the class `AareguruClient`, whose methods update the cache map and the last-request time in place.
- `Helpers`.
- `Service`.

Inputs that the code reads from the outside world are parameters:

- The clock is given as `now` and `received` (seconds, `real`) and the calendar month as `month`.
- The upstream answer is an `Upstream` value: unreachable, or a status code with a body that may not be valid JSON.
- The responses that `get_current`/`get_today` return, or the exception they raised, are parameters too.
- So is the sequence that `asyncio.gather` returns, one entry per requested city in the order asked.

## Model

| member | source | states |
|---|---|---|
| `Dicts.Get` | src/aareguru_mcp/client.py:167-168 | Python's `in` and `[]` on the query-parameter dict that these assignments fill: a key is found exactly when present, and the value found is one stored under it. |
| `Dicts.Set` | src/aareguru_mcp/client.py:167-168 | `d[k] = v` keeps keys distinct and the key order; an existing key keeps its place, a new key is appended; afterwards `k` maps to `v` and every other key is unchanged. |
| `Dicts.SetSameItems` | src/aareguru_mcp/client.py:167-168 | Two dictionaries with the same items still have the same items after the same assignment. |
| `UrlEncoding.Utf8` | src/aareguru_mcp/client.py:109 | The UTF-8 encoding of a character has 1 to 4 bytes, with the length its lead byte announces. Every continuation byte is in 0x80..0xBF. The length is the shortest for the code point (no overlong form). The bytes decode back to the character. |
| `UrlEncoding.EscapeAllInjective` | src/aareguru_mcp/client.py:109 | Percent-escaping byte strings is injective. |
| `UrlEncoding.QuoteCharPrefixFree` | src/aareguru_mcp/client.py:109 | The `quote_plus` encodings of single characters form a prefix-free code. |
| `UrlEncoding.Quote` | src/aareguru_mcp/client.py:109 | `quote_plus` never shortens a string and gives the empty string only for the empty string. It is injective (`UrlEncoding.QuoteInjective`). |
| `UrlEncoding.QuoteKeepsSafe` | src/aareguru_mcp/client.py:109 | `quote_plus` leaves a string of always-safe characters (letters, digits, `_.-~`) as it is. |
| `UrlEncoding.QuoteInjective` | src/aareguru_mcp/client.py:109 | `quote_plus` is injective. |
| `UrlEncoding.QuoteExcludes` | src/aareguru_mcp/client.py:109 | `quote_plus` output never contains `=` or `&`, so the separators of `urlencode` are unambiguous. |
| `UrlEncoding.FieldInjective` | src/aareguru_mcp/client.py:109 | A `key=value` field followed by `&` or the end determines the key, the value and what follows. |
| `UrlEncoding.UrlEncode` | src/aareguru_mcp/client.py:109 | `urlencode` gives the empty string exactly for no parameters. It is injective (`UrlEncoding.UrlEncodeInjective`). |
| `UrlEncoding.UrlEncodeInjective` | src/aareguru_mcp/client.py:109 | `urlencode` of a sequence of pairs is injective: equal query strings come from equal sequences. |
| `CacheKeys.StrLessTrichotomy` | src/aareguru_mcp/client.py:109 | Python's string order is total: of two different strings, exactly one is smaller. |
| `CacheKeys.SortItems` | src/aareguru_mcp/client.py:109 | `sorted(params.items())` is in ascending pair order and is a permutation of the items. |
| `CacheKeys.SortedUnique` | src/aareguru_mcp/client.py:109 | Two sorted sequences with the same items are equal. |
| `CacheKeys.CacheKey` | src/aareguru_mcp/client.py:107-110 | The key starts with the endpoint followed by `?`, and is exactly that when there are no parameters. Order-independence and value-sensitivity are the two lemmas below. |
| `CacheKeys.CacheKeyOrderIndependent` | src/aareguru_mcp/client.py:107-110 | Two parameter lists give the same key for an endpoint if and only if they hold the same items, whatever their order. |
| `CacheKeys.CacheKeyDistinguishesValues` | src/aareguru_mcp/client.py:107-110 | Giving a parameter two different values gives two different keys. |
| `Client.CacheEntry.IsExpired` | src/aareguru_mcp/client.py:25-27 | `is_expired`: expired strictly after the expiry instant. `Client.EntryLifetime` states it for a new entry. |
| `Client.NewCacheEntry` | src/aareguru_mcp/client.py:21-23 | A new entry holds the given data, is live at the instant it is made, and can only expire later. |
| `Client.EntryLifetime` | src/aareguru_mcp/client.py:21-27 | An entry made at `created` is expired at `t` if and only if `t > created + ttl`. A ttl-0 entry is expired at any later instant; a positive-ttl entry is live when made. |
| `Client.Lookup` | src/aareguru_mcp/client.py:112-123 | Data is returned if and only if the key is present and not expired, and it is the stored data. An expired entry is deleted. An absent or live key leaves the cache as it was. |
| `Client.LookupTouchesOnlyItsKey` | src/aareguru_mcp/client.py:112-123 | A lookup never changes any key other than its own. |
| `Client.StoreThenLookup` | src/aareguru_mcp/client.py:125-127 | Data stored under a key is found again, unchanged, at any instant up to its expiry. |
| `Client.ThrottleWait` | src/aareguru_mcp/client.py:133-140 | The wait is never negative. It is zero without a previous dispatch. Waiting it always reaches `previous + min_interval`, and a positive wait ends exactly there. |
| `Client.NoIntervalNoWait` | src/aareguru_mcp/client.py:133-140 | With a zero minimum interval there is no wait. |
| `Client.Outcome` | src/aareguru_mcp/client.py:184-203 | Only a 2xx response with a JSON body yields data. Other statuses, transport failures and bad JSON are errors. |
| `Client.WithIdentity` | src/aareguru_mcp/client.py:164-168 | The query holds `app` and `version` from the settings, and every other caller parameter unchanged, with keys distinct. |
| `Client.KeyedStep` | src/aareguru_mcp/client.py:171-193 | From the cache check on, a request goes upstream if and only if caching is off or the key has no live entry. Without a dispatch, the state is unchanged and the cached data is returned. With a dispatch, the result is the upstream outcome and the last-request time is the start plus the throttle wait. A cacheable success overwrites the entry at the key with a new entry made at receipt. |
| `Client.RequestStep` | src/aareguru_mcp/client.py:144-203 | `_request` as a whole: `KeyedStep` at the key of the identified parameters. Without `use_cache` it always dispatches, returns the upstream outcome and leaves the cache as it was. |
| `Client.RequestKeyIgnoresParamOrder` | src/aareguru_mcp/client.py:164-171 | After `app`/`version` are added, the same caller parameters in any order give the same key. |
| `Client.RequestIgnoresParamOrder` | src/aareguru_mcp/client.py:164-193 | A request's result, dispatch decision and new client state do not depend on parameter order. |
| `Client.CacheHitSkipsThrottle` | src/aareguru_mcp/client.py:172-175 | A live cached entry is returned without throttling or dispatching, and the client state is unchanged. |
| `Client.CacheWriteDiscipline` | src/aareguru_mcp/client.py:172-193 | The cache changes only at the request's key. A new entry is written only when `use_cache` is set and the dispatched fetch succeeded. Without `use_cache` the cache is untouched. |
| `Client.DispatchesAreSpaced` | src/aareguru_mcp/client.py:130-142 | Every dispatch records a time at least `min_interval` after the previous one. A cache hit records nothing. A request without `use_cache` always dispatches and returns the upstream outcome. |
| `Client.RepeatWithinTtlIsServedFromCache` | src/aareguru_mcp/client.py:171-193 | Repeating a successful cacheable request before its entry expires returns the same data without dispatching and without changing state. |
| `Client.HistoryParams` | src/aareguru_mcp/client.py:296-300 | The history query has distinct keys. |
| `Client.HistoryBypassesCache` | src/aareguru_mcp/client.py:277-301 | `get_history` always dispatches, never changes the cache, and returns the upstream outcome. |
| `Client.AareguruClient.constructor` | src/aareguru_mcp/client.py:50-77 | A new client has an empty cache and no previous request time. |
| `Client.AareguruClient.GetCached` | src/aareguru_mcp/client.py:112-123 | Returns and leaves behind exactly what `Lookup` describes. |
| `Client.AareguruClient.SetCache` | src/aareguru_mcp/client.py:125-128 | Overwrites the entry at the key with data expiring `ttl` seconds from now, and touches nothing else. |
| `Client.AareguruClient.RateLimit` | src/aareguru_mcp/client.py:130-142 | Waits `ThrottleWait` and always records the time after the wait. |
| `Client.AareguruClient.Request` | src/aareguru_mcp/client.py:144-203 | Result, dispatch and new state are those of `RequestStep`, which the lemmas above characterise. |
| `Client.AareguruClient.Fetch` | src/aareguru_mcp/client.py:172-193 | From the cache check on, the request behaves as `KeyedStep`. |
| `Client.AareguruClient.GetToday` | src/aareguru_mcp/client.py:226-244 | A cached request to `/v2018/today` with the `city` parameter. |
| `Client.AareguruClient.GetCurrent` | src/aareguru_mcp/client.py:246-264 | A cached request to `/v2018/current` with the `city` parameter. |
| `Client.AareguruClient.GetCities` | src/aareguru_mcp/client.py:205-224 | A cached request to `/v2018/cities` without parameters. |
| `Client.AareguruClient.GetWidget` | src/aareguru_mcp/client.py:266-275 | A cached request to `/v2018/widget` without parameters. |
| `Client.AareguruClient.GetHistory` | src/aareguru_mcp/client.py:277-301 | An uncached request to `/v2018/history`; the cache is left unchanged. |
| `Client.FetchTwiceWithinTtl` | src/aareguru_mcp/client.py:171-193 | On a new client, two identical cacheable requests within the TTL dispatch once, and both return the first response's data. |
| `Helpers.SeasonalAdvice` | src/aareguru_mcp/helpers.py:21-31 | The advice is the winter message if and only if the month is 11, 12, 1, 2 or 3. Spring is 4 or 5, summer 6, 7 or 8, and the autumn message covers every other month. |
| `Helpers.EveryMonthOneSeason` | src/aareguru_mcp/helpers.py:19-31 | Every calendar month gets one of the four messages, and autumn is exactly September and October. |
| `Helpers.EffectiveThreshold` | src/aareguru_mcp/helpers.py:47 | A missing or zero threshold becomes 220. Any other threshold is kept. |
| `Helpers.CheckSafetyWarning` | src/aareguru_mcp/helpers.py:44-56 | No flow gives no warning. Above 430 gives extreme danger, above 300 up to 430 danger, above the threshold up to 300 caution, and otherwise none. All comparisons are strict. |
| `Helpers.WarningMonotoneInFlow` | src/aareguru_mcp/helpers.py:49-56 | More flow never gives a milder warning. |
| `Helpers.SafetyAssessment` | src/aareguru_mcp/helpers.py:134-145 | Level 0 with "Unknown" if and only if there is no flow. Otherwise the level is 1 to 5: the first band whose bound (100, threshold, 300, 430) the flow is below. Each level has its own text. |
| `Helpers.AssessmentMonotone` | src/aareguru_mcp/helpers.py:136-145 | The level never falls as flow rises and never rises as the threshold rises. |
| `Helpers.WarningMatchesAssessment` | src/aareguru_mcp/helpers.py:44-56 | For a threshold in [100, 300] and a flow off the band edges: no warning at levels 1 and 2, caution at 3, danger at 4, extreme danger at 5. |
| `Helpers.BandEdgesDisagree` | src/aareguru_mcp/helpers.py:136-145 | At flow = threshold, 300 or 430 the two classifiers part: level 3 with no warning, level 4 with caution, level 5 with danger. |
| `Helpers.LowerChar` | src/aareguru_mcp/helpers.py:81 | An upper-case letter (ASCII or Latin-1) becomes its lower-case partner. Any other character is kept. The result is never upper case. |
| `Helpers.Lower` | src/aareguru_mcp/helpers.py:81 | Lowercasing keeps the length and leaves no upper-case letter. It lowers each upper-case letter and keeps every other character in place. |
| `Helpers.LowerIdempotent` | src/aareguru_mcp/helpers.py:81 | Lowercasing twice is lowercasing once. |
| `Helpers.LowerIgnoresCase` | src/aareguru_mcp/helpers.py:81 | Two strings that differ only in the case of their letters lower to the same string. |
| `Helpers.FirstMatchFrom` | src/aareguru_mcp/helpers.py:80-84 | Finds the first table entry from a position on whose phrase occurs in the text, or establishes that none does. |
| `Helpers.SwissGermanExplanation` | src/aareguru_mcp/helpers.py:68-84 | A missing or empty text gives nothing. Otherwise the result is the explanation of the first phrase, in table order, that occurs in the text ignoring case; nothing if none occurs. |
| `Helpers.PhrasesAreLowercase` | src/aareguru_mcp/helpers.py:71-78 | The table's phrases are unchanged by lowercasing. |
| `Helpers.FirstPhraseWins` | src/aareguru_mcp/helpers.py:71-82 | Any text holding "geil aber chli chalt" in any case is explained as "Awesome…", although it also holds the later "chli chalt". |
| `Helpers.CaseIsIgnored` | src/aareguru_mcp/helpers.py:81 | "SCHÖN WARM" is explained as "Nice and warm". |
| `Helpers.ExplanationIgnoresCase` | src/aareguru_mcp/helpers.py:80-82 | Two texts that differ only in the case of their letters get the same explanation. |
| `Helpers.ShortTextUnexplained` | src/aareguru_mcp/helpers.py:71-84 | Texts shorter than the shortest phrase (four characters) get no explanation. |
| `Helpers.WarmestOther` | src/aareguru_mcp/helpers.py:104-111 | Returns the first city, other than the current one, whose temperature is strictly the greatest and above -100, with that maximum. With no such city it returns none and -100. |
| `Helpers.SuggestionIsDetermined` | src/aareguru_mcp/helpers.py:97-121 | The suggestion contract admits exactly one answer for given inputs. |
| `Helpers.WarmerSuggestion` | src/aareguru_mcp/helpers.py:97-121 | A suggestion is made if and only if the temperature is known and below 18, the city listing was fetched, and another city is more than one degree warmer (and above -100). It names the warmest such city, the first on a tie. |
| `Service.Describe` | src/aareguru_mcp/service.py:322-323 | An exception's description starts with its class name and is never empty. |
| `Service.TrendOf` | src/aareguru_mcp/service.py:453-460 | Unknown if and only if a reading is missing. Otherwise rising, falling or stable exactly as the forecast is above, below or equal to the current temperature. |
| `Service.TrendSwap` | src/aareguru_mcp/service.py:453-460 | Swapping the readings swaps rising and falling and keeps stable and unknown. |
| `Service.ChangeAsWritten` | src/aareguru_mcp/service.py:469-471 | As written, the change is present only when both readings are present and non-zero. |
| `Service.Change` | src/aareguru_mcp/service.py:469-471 | The change `forecast − current` is present if and only if both readings are present. |
| `Service.ChangeAgreesWithTrend` | src/aareguru_mcp/service.py:453-471 | The change is positive exactly when rising, negative exactly when falling, zero exactly when stable, and missing exactly when unknown. |
| `Service.ChangeAsWrittenDropsZero` | src/aareguru_mcp/service.py:469-471 | From 0.0 to 2.0 the trend is rising, but the as-written change is missing. |
| `Service.ChangeAsWrittenAgreesAwayFromZero` | src/aareguru_mcp/service.py:469-471 | Without a 0.0 reading the two change definitions coincide. |
| `Service.FlowDangerLevel` | src/aareguru_mcp/service.py:256-281 | Without aare data: level 0 and "No data available". Otherwise the threshold is the city's own (220 when missing or zero), and the assessment is the helper's for the flow against it. Exceptions propagate. |
| `Service.DangerLevelRange` | src/aareguru_mcp/service.py:259-272 | The level is at most 5 and is 0 exactly when there is no flow reading. The text tells a missing aare record from a missing flow, and a city without a threshold is banded at 220. |
| `Service.GetCurrentTemperature` | src/aareguru_mcp/service.py:88-133 | With aare data, the current response gives temperature, text, flow-based warning, name and legacy fields. Without it, the today response gives them, with no flow and so no warning. The explanation, suggestion and seasonal advice follow the helpers. Exceptions propagate. |
| `Service.CurrentWarningIgnoresCityThreshold` | src/aareguru_mcp/service.py:103 | The temperature tool warns at the default 220. A flow of 250 draws a caution where the danger-level tool, with a city threshold of 260, rates it level 2. |
| `Service.FetchConditions` | src/aareguru_mcp/service.py:316-325 | A fetched response is carried with no error. A raised exception becomes a non-empty error and no result. |
| `Service.FileConditions` | src/aareguru_mcp/service.py:336-373 | A gathered result is filed as a success if and only if it returned with no error, a response and aare data. The row carries the city, temperature, flow and safety. A failure carries a non-empty message, under the item's own city when the item came back. |
| `Service.Successes` | src/aareguru_mcp/service.py:333-373 | `city_data` holds exactly the rows of the results filed as successes. |
| `Service.Failures` | src/aareguru_mcp/service.py:333-373 | `errors` holds exactly the entries of the results filed as failures. |
| `Service.IsSafe` | src/aareguru_mcp/service.py:369 | A city is safe if and only if its flow is missing or below 150. |
| `Service.EveryResultFiledOnce` | src/aareguru_mcp/service.py:336-378 | Every gathered result lands in exactly one of `city_data` and `errors`. |
| `Service.FailedFetchIsReported` | src/aareguru_mcp/service.py:349-351 | A city whose fetch raised is listed among the errors under its own name with the exception described. |
| `Service.SortKey` | src/aareguru_mcp/service.py:382 | The key `temperature or 0`: a row without a temperature ranks as 0 °C. `Service.SortWarmestFirst` orders by it. |
| `Service.InsertByKey` | src/aareguru_mcp/service.py:381-382 | Insertion keeps the list warmest first and adds exactly the new row. |
| `Service.SortWarmestFirst` | src/aareguru_mcp/service.py:381-382 | The sorted list is warmest first (missing temperature counts as 0) and is a permutation of the input. |
| `Service.SortIsStable` | src/aareguru_mcp/service.py:381-382 | Rows with equal sort keys keep their input order. |
| `Service.CountSafe` | src/aareguru_mcp/service.py:405 | The safe count never exceeds the number of rows. |
| `Service.CountSafeSorted` | src/aareguru_mcp/service.py:381-405 | Sorting does not change the safe count. |
| `Service.JoinLines` | src/aareguru_mcp/service.py:393-395 | The joined lines are empty exactly when there are no errors. |
| `Service.ErrorSummary` | src/aareguru_mcp/service.py:393-395 | The summary is empty exactly when there are no errors, and holds all of them when there are at most three. |
| `Service.SummaryIgnoresLaterErrors` | src/aareguru_mcp/service.py:392-394 | Errors after the third never reach the summary. |
| `Service.SummaryMentionsFirstErrors` | src/aareguru_mcp/service.py:392-394 | Each of the first three errors (or fewer) appears in the summary as `city: error`. |
| `Service.RequestedCities` | src/aareguru_mcp/service.py:309-313 | The fallback happens only when no list is given (`is None`): an empty list compares no cities and never falls back to the listing. The request is empty exactly for an empty list, or for no list and an empty listing. |
| `Service.FileComparisonResults` | src/aareguru_mcp/service.py:333-378 | The loop's `city_data` and `errors` are the successes and failures of the gathered results, in order. |
| `Service.CompareCities` | src/aareguru_mcp/service.py:333-409 | Raises if and only if there are no successes among a non-empty request, with the count and the summary of the first errors. Otherwise the cities are the successes, warmest first, a stable permutation. Warmest and coldest are first and last. The safe count counts the successes. Success and error counts add up to the requested count, and errors is None when empty. Empty input returns an empty comparison. |
| `Service.FetchForecast` | src/aareguru_mcp/service.py:437-481 | A result exists if and only if the response has aare data; otherwise there is a non-empty error. The result carries the readings and their trend. Its change is the corrected `Service.Change` (see Findings and Left out). |
| `Service.FetchAllForecasts` | src/aareguru_mcp/service.py:484-486 | Every gathered item came back as a value (nothing escapes), under its own city, in order. An item holds a result exactly when its response had aare data, and otherwise reports an error. |
| `Service.NoForecastEscapes` | src/aareguru_mcp/service.py:475-500 | `fetch_forecast` catches every exception, so the loop's `isinstance(item, Exception)` branch is never taken: every error is reported under a requested city. |
| `Service.CollectForecasts` | src/aareguru_mcp/service.py:510-511 | The forecasts dictionary has distinct cities. |
| `Service.ForecastFailure` | src/aareguru_mcp/service.py:493-508 | A gathered item yields an error entry exactly when it escaped or carries an error, under its own city when it came back. |
| `Service.ForecastFailures` | src/aareguru_mcp/service.py:488-511 | `errors` holds exactly the entries of the failed items, and never more than there are items. |
| `Service.CollectKeepsLastResult` | src/aareguru_mcp/service.py:488-511 | Duplicate cities collapse: each city maps to its last stored result, and a city without one is absent. |
| `Service.ForecastCountBound` | src/aareguru_mcp/service.py:491-514 | Forecasts plus errors never exceed the number of gathered results. |
| `Service.ForecastAccounting` | src/aareguru_mcp/service.py:437-514 | When distinct cities are fetched by `fetch_forecast`, each lands in the forecasts or the errors, so the two counts add up to the number of cities. |
| `Service.FileForecastResults` | src/aareguru_mcp/service.py:488-511 | The loop's `forecasts` and `errors` are those of the gathered results, in order. |
| `Service.GetForecasts` | src/aareguru_mcp/service.py:488-535 | Raises if and only if no forecast was stored among a non-empty request. Otherwise each city maps to its last stored result, the success count is the dictionary size, the requested count is the input length, and successes plus errors never exceed it. The stored changes are the corrected ones (see Left out). |

## Left out

- HTTP transport: the `httpx.AsyncClient`, connection pooling, `close` and the context manager are not modelled. The upstream exchange is the `Upstream` input. Decoding into the pydantic response models is not modelled either: the `get_*` methods return the raw data.
- Real clocks and concurrency: `datetime.now`, `asyncio.sleep` and `asyncio.Lock` are not modelled. The clock is a parameter, the sleep lasts exactly the computed wait, and `_rate_limit` runs atomically. `asyncio.gather` is its result sequence in input order.
- Service.FetchForecast: computes `change` with the corrected `Service.Change`. When a reading is exactly 0.0 °C the source leaves `change` as None, but the model gives `forecast − current`. For example, current 0.0 and forecast 2.0 give change 2.0 instead of None. The code as written is `Service.ChangeAsWritten`; see Findings.
- Service.GetForecasts: inherits that difference through `Service.FetchAllForecasts`. Its stored results can carry a change where the source has None.
- Client.AareguruClient.Request: a body that is JSON `null` is cached by the client but read back as a miss (`cached is not None`). The model counts every stored body as a hit.
- Client.WithIdentity: the client inserts `app` and `version` into the caller's own dictionary, which the caller then sees changed. The model builds a new parameter list.
- UrlEncoding.Quote: Python strings may hold lone surrogates, which `quote_plus` cannot encode. Dafny characters are Unicode scalar values, so that error path does not exist in the model.
- Helpers.Lower: lowercases ASCII and Latin-1 letters only. Python's `str.lower` covers all of Unicode, including characters that lowercase to two.
- Helpers.WarmerSuggestion: returns the chosen city's name and temperature, not the formatted tip text, because float formatting is not modelled.
- Service.CompareCities: `AllFailed` carries the requested count and the error summary, not the full message text. The same holds for `Service.GetForecasts`.
- Service.GetCurrentTemperature: `hasattr` is simplified. A present aare record always has `location` and `temperature`, and the today fallback's float has neither.
- Fetching the city listing when `compare_cities` gets no list is a parameter of `Service.RequestedCities`. An exception from that call propagates and is not modelled.
- The `except` branch of the `compare_cities` loop (src/aareguru_mcp/service.py:374-378) cannot be reached once aare data is present, since building the row raises nothing, so it is not modelled.
- The in-place `city_data.sort` is a function on the list's value; the list is local to the call, so no aliasing is lost.
- Floating point: flows and temperatures are `real`. NaN, infinities and rounding of `forecast_2h - current` are not modelled.
- The service's other operations (conditions, history, city lists), `Settings` loading, logging and metrics are not part of this model.

## Findings

| source | as written | input that shows it | evidently intended | confidence | as-written member | corrected member |
|---|---|---|---|---|---|---|
| src/aareguru_mcp/service.py:469-471 | `change` is computed only when both readings are truthy, so a reading of exactly 0.0 °C counts as missing | current 0.0, forecast 2.0: trend "rising", change None | the change is present whenever both readings are, like the trend beside it, which tests `is None` | medium, not executed | `Service.ChangeAsWritten` (shown by `Service.ChangeAsWrittenDropsZero`) | `Service.Change` (proved by `Service.ChangeAgreesWithTrend`; used by `Service.FetchForecast`) |
