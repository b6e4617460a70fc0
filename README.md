# Border-crossing status and forecast refresh, modelled in Dafny

The application keeps two facts about the Cristo Redentor mountain crossing
up to date, each through its own background job.

- **Forecast job.**
  - `_actualizar_pronostico` takes a 3-hour forecast feed.
  - It groups the samples by local calendar date, keeping the order in which dates first appear.
  - Each day gets a summary: minimum and maximum temperature, most frequent description (ties go to the first seen), capitalised, mean wind converted to km/h, and two fixed placeholders.
  - The output is cut to four days.
  - Each day is upserted into `PronosticoDiario`, keyed on (crossing, date).
  - If the commit fails, the writes are rolled back.
  - `actualizar_automatico` runs the job for the first crossing.
  - `get_pronostico` returns a crossing's four latest days in ascending date order, or a 404.
- **Status job.**
  - `actualizar_estado` reads the status page.
  - It extracts the status label and its freshness text from the first `span` with a `label-success|warning|danger` class, ignoring case.
  - It extracts the opening hours from the text after the first "Horarios de atención:" label, using the pattern `\d{4}\s*HS\s*A\s*\d{4}\s*HS`, ignoring case.
  - Each way the page can fail has its own fixed fallback text.
  - A fetch or parse error replaces all three texts.
  - The result is written to the first `pasos` row. That row is created, named "Cristo Redentor", when the table is empty.
  - `api_paso` serves the first row, or a 404.

The model is split into these modules:

| Module | What it holds |
|---|---|
| `Text`, `Counting` | Python's `strip`, `capitalize`, case-insensitive containment, insertion-ordered dict keys, `defaultdict(int)` counters, and `max(d, key=d.get)`. |
| `ForecastAggregation` | The daily-forecast definition as pure functions (`DailyForecasts`), and the loops of `_procesar_datos_pronostico` as methods proved equal to it (`GroupByDate`, `Summarize`, `ProcessForecast`). |
| `ForecastProperties` | What that definition means. |
| `ForecastStore` | The forecast table as a class: the upsert loop, commit and rollback, the sync job, the automatic job, and the read path. |
| `HoursPattern` | A scanner for the hours pattern, proved equal to a declarative description of a match, and a leftmost search. |
| `StatusExtraction` | The page as a list of elements, and the three extracted texts. |
| `StatusStore` | The `pasos` table as a class, with the status job and `api_paso`. |

Boundaries are parameters instead of calls:

- **Feed request.**
  - The forecast job gets the outcome of the feed request as a `FeedResponse`: no answer, a body without `list`, or the list of samples.
  - Timestamps are mapped to local dates by a `localDate` function parameter, which stands for `datetime.fromtimestamp(...).date()`.
  - Whether the commit succeeds is a boolean parameter.
- **Status page.**
  - The status job gets the fetch outcome as a `PageFetch`: an error message, or the parsed elements in document order.

One might expect the daily forecasts in ascending date order. The code instead emits days in the order their dates first occur in the feed (`pronostico_por_dia.items()` at `routes/clima_routes.py:115`). The model follows the code, as `DailyForecastsInFirstOccurrenceOrder` states. Two lemmas state what follows when the feed is in date order:

- `DailyForecastsAscendingForSortedFeed`: the days then come out in ascending date order.
- `DailyForecastsKeepEarliestForSortedFeed`: the four days kept are then the earliest dates.

## Model

| member | source | states |
|---|---|---|
| Text.TrimStart | routes/tomar_paso_routes.py:90-92 | `lstrip` gives a suffix of the text. The suffix does not start with whitespace, and everything dropped is whitespace, using the `str.isspace` character set. |
| Text.TrimEnd | routes/tomar_paso_routes.py:90-92 | `rstrip` gives a prefix of the text. The prefix does not end with whitespace, and everything dropped is whitespace. |
| Text.StripEmptyIff | routes/tomar_paso_routes.py:90 | `strip()` leaves nothing exactly when the text is all whitespace. This is the truth test on the freshness node. |
| Text.StripKeepsTrimmed | routes/tomar_paso_routes.py:108 | Text that neither starts nor ends with whitespace is unchanged by `strip()`. |
| Text.LowerAll | routes/clima_routes.py:130 | Lower-casing keeps the length and maps every character through the single-character lower-case mapping. |
| Counting.Count | routes/clima_routes.py:109 | An occurrence count never exceeds the length, and is positive exactly when the element occurs. |
| Counting.Distinct | routes/clima_routes.py:93-115 | A dict's keys after filling it from a sequence: no duplicates, the same elements as the sequence, and no longer than it. |
| Counting.DistinctKeepsFirstOccurrenceOrder | routes/clima_routes.py:93-115 | Dict keys come in the order in which the elements first occur. |
| Counting.Tally | routes/clima_routes.py:75-109 | A `defaultdict(int)` counter has exactly the elements as keys, each mapped to its number of occurrences. |
| Counting.DistinctSnoc | routes/clima_routes.py:109 | Adding an element extends the key order exactly when the element is new. |
| Counting.TallySnoc | routes/clima_routes.py:109 | Adding an element raises its count by one, starting from zero, and leaves every other count as it was. |
| Counting.MostFrequent | routes/clima_routes.py:117 | `max(d, key=d.get)` returns a key whose count no key exceeds, and every key before it in order has a strictly smaller count. |
| Counting.FirstModeIsUnique | routes/clima_routes.py:117 | The most frequent element, with ties going to the first seen, is unique. |
| Counting.MostFrequentBeats | routes/clima_routes.py:117 | `max` over the keys beats every key before it strictly and every key after it weakly. |
| Counting.MostFrequentOfTallyIsFirstMode | routes/clima_routes.py:108-117 | Counting the descriptions and then taking `max` gives the most frequent description, ties going to the first seen. |
| ForecastAggregation.DaySamples | routes/clima_routes.py:79-93 | A date's bucket is non-empty exactly when some sample falls on that date. |
| ForecastAggregation.LowBound | routes/clima_routes.py:71-98 | The running minimum stays at +inf exactly when no sample has been seen, and is never -inf. |
| ForecastAggregation.HighBound | routes/clima_routes.py:72-101 | The running maximum stays at -inf exactly when no sample has been seen, and is never +inf. |
| ForecastAggregation.Take | routes/clima_routes.py:137 | `s[:n]` has length min(\|s\|, n) and is a prefix of `s`. |
| ForecastAggregation.DaySnoc | routes/clima_routes.py:93-109 | Appending a sample to a day has these effects. A strictly lower temperature replaces the running minimum, and a strictly higher one replaces the running maximum. The sample's speed is added to the wind sum, and its description is appended. |
| ForecastAggregation.AccumulateStep | routes/clima_routes.py:93-109 | One iteration keeps a date's accumulator equal to the running bounds, wind sum and count, and description counter of that date's samples so far. |
| ForecastAggregation.GroupStep | routes/clima_routes.py:79-109 | One iteration keeps three things: the key order equals the distinct dates so far in first-occurrence order, the buckets are exactly the keys, and each bucket has absorbed exactly its date's samples. |
| ForecastAggregation.GroupByDate | routes/clima_routes.py:70-109 | After the loop, the dates appear in first-occurrence order, and every bucket has absorbed exactly its date's samples. |
| ForecastAggregation.FinishAccumulated | routes/clima_routes.py:115-134 | Finishing the accumulator of a non-empty day gives exactly that day's summary: finite bounds, the counted mode capitalised, and the mean wind in km/h. |
| ForecastAggregation.SummariesAreDailyForecasts | routes/clima_routes.py:112-137 | The per-key summaries, cut to four, are the daily-forecast definition. |
| ForecastAggregation.Summarize | routes/clima_routes.py:112-134 | The finishing loop gives one summary per key, in key order, each the summary of that date's samples. |
| ForecastAggregation.ProcessForecast | routes/clima_routes.py:65-137 | `_procesar_datos_pronostico` returns exactly the daily-forecast definition for the feed. |
| ForecastProperties.DaySamplesAreThatDay | routes/clima_routes.py:79-93 | A date's bucket holds samples of that date only, and every sample of that date. |
| ForecastProperties.LowBoundIsMinimum | routes/clima_routes.py:70-98 | For a non-empty day, the running minimum is finite, no greater than any temperature, and equal to one of them. |
| ForecastProperties.HighBoundIsMaximum | routes/clima_routes.py:72-101 | For a non-empty day, the running maximum is finite, no smaller than any temperature, and equal to one of them. |
| ForecastProperties.SummaryTemperatures | routes/clima_routes.py:91-129 | `temp_min` and `temp_max` bracket every temperature of the day and are both attained, so `temp_min` <= `temp_max`. |
| ForecastProperties.SummaryDescription | routes/clima_routes.py:108-130 | The description is the capitalisation of the day's most frequent description, ties going to the first seen. |
| ForecastProperties.SummaryWind | routes/clima_routes.py:104-131 | The wind is the sum of the day's speeds divided by the day's non-zero sample count, times 3.6. |
| ForecastProperties.SummaryPlaceholders | routes/clima_routes.py:127-133 | The summary carries its own date, direction "Oeste" and visibility 10000. |
| ForecastProperties.DailyForecastsShape | routes/clima_routes.py:79-137 | There are min(number of distinct dates, 4) summaries, and entry k is the summary of the k-th distinct date's non-empty bucket. |
| ForecastProperties.DailyForecastDatesDistinct | routes/clima_routes.py:93-115 | No two summaries share a date. |
| ForecastProperties.DailyForecastDatesFromSamples | routes/clima_routes.py:79-127 | Every summary date is the local date of some sample. |
| ForecastProperties.DailyForecastsInFirstOccurrenceOrder | routes/clima_routes.py:93-115 | Earlier summaries belong to dates that first occur earlier in the feed. |
| ForecastProperties.DailyForecastsAscendingForSortedFeed | routes/clima_routes.py:115-137 | For a feed in date order, the summaries are in strictly ascending date order. |
| ForecastProperties.DailyForecastsKeepEarliestForSortedFeed | routes/clima_routes.py:115-137 | For a feed in date order, a date left out by the cut to four is later than every date kept. |
| ForecastProperties.DailyForecastsCoverFewDates | routes/clima_routes.py:137 | When the feed spans at most four dates, every sample's date has a summary. |
| ForecastProperties.DailyForecastsEmptyIff | routes/clima_routes.py:79-137 | There are no summaries exactly when the feed has no samples. |
| ForecastProperties.ExtremesExample | routes/clima_routes.py:97-129 | Temperatures 12.0, 15.5 and 9.2 on one day give a minimum of 9.2 and a maximum of 15.5. |
| ForecastProperties.WindExample | routes/clima_routes.py:104-131 | Speeds of 2 and 4 m/s give 10.8 km/h. |
| ForecastProperties.TieGoesToFirst | routes/clima_routes.py:117 | A two-sample day with two different descriptions, each counted once, is described by the first one. |
| ForecastProperties.MajorityWins | routes/clima_routes.py:117 | In a three-sample day whose first two descriptions agree and differ from the third, the repeated description wins. |
| ForecastStore.IndexOf | routes/clima_routes.py:171-174 | The lookup finds the first row with the (crossing, date) key, and finds nothing exactly when no row has it. |
| ForecastStore.Overwrite | routes/clima_routes.py:177-183 | Overwriting keeps the row's id, crossing and date, and sets the six aggregate fields from the summary. |
| ForecastStore.NewRow | routes/clima_routes.py:186-191 | A new row has the given id, the crossing and the summary's date, and all six aggregate fields from the summary. |
| ForecastStore.UpsertFrame | routes/clima_routes.py:170-192 | An upsert either overwrites the keyed row in place or appends one new row with a fresh id. No other row changes. |
| ForecastStore.UpsertEstablishes | routes/clima_routes.py:170-192 | After an upsert, the lookup for the summary's key finds a row agreeing with the summary. |
| ForecastStore.UpsertKeepsHolds | routes/clima_routes.py:170-192 | An upsert for another date leaves an earlier day's row found and agreeing. |
| ForecastStore.UpsertNoOp | routes/clima_routes.py:176-184 | Upserting a summary the table already agrees with changes nothing. |
| ForecastStore.UpsertPreservesWellFormed | routes/clima_routes.py:170-192 | An upsert keeps at most one row per key, unique ids, and every id below the next one. |
| ForecastStore.UpsertAllEstablishes | routes/clima_routes.py:168-192 | After the loop over distinct dates, every summary's row is found and agrees with it. |
| ForecastStore.UpsertAllNoOp | routes/clima_routes.py:168-192 | The loop changes nothing when every summary's row already agrees. |
| ForecastStore.UpsertAllIdempotent | routes/clima_routes.py:168-192 | Running the loop a second time on the same days changes nothing. |
| ForecastStore.UpsertAllFrame | routes/clima_routes.py:168-192 | The loop keeps the table well formed, adds at most one row per day, and keeps every row's identity and key. Rows of other crossings or other dates are untouched. |
| ForecastStore.SyncFailuresWriteNothing | routes/clima_routes.py:148-200 | No answer, a body without `list`, no days, and a failed commit each leave the table unchanged, each with its own report. |
| ForecastStore.SyncSavedDays | routes/clima_routes.py:160-196 | A committed run saves exactly when the feed has samples. It reports between 1 and 4 days, one per summary, and every summary's row is found and agrees. |
| ForecastStore.SyncPreservesTable | routes/clima_routes.py:140-200 | A run keeps the table well formed, adds at most four rows, and keeps every row's id. Other crossings' rows are untouched. |
| ForecastStore.SyncIdempotent | routes/clima_routes.py:140-200 | Running the job twice on the same feed gives the same table and the same report as running it once. |
| ForecastStore.OfPass | routes/clima_routes.py:26 | The filter keeps exactly the crossing's rows. |
| ForecastStore.OfPassCounts | routes/clima_routes.py:26 | The filter keeps each of the crossing's rows exactly as often as the table holds it, and no row of another crossing. |
| ForecastStore.InsertNewestFirst | routes/clima_routes.py:27 | Inserting into a newest-first list keeps it newest-first and adds exactly that row. |
| ForecastStore.SortNewestFirst | routes/clima_routes.py:27 | `order_by(fecha_pronostico.desc())` gives a newest-first permutation of the rows. |
| ForecastStore.Reverse | routes/clima_routes.py:36 | `reverse()` keeps the length, puts element k at position n-1-k, and is a permutation. |
| ForecastStore.GetForecastEmptyIff | routes/clima_routes.py:26-33 | The read answers 404 exactly when the crossing has no rows. |
| ForecastStore.GetForecastSize | routes/clima_routes.py:26-29 | The read gives min(number of the crossing's rows, 4) rows, and at least one. |
| ForecastStore.GetForecastAscending | routes/clima_routes.py:27-36 | The rows read are in ascending date order. |
| ForecastStore.GetForecastFromPass | routes/clima_routes.py:26-36 | Every row read is a row of that crossing. No row is read more often than the table holds it, so the rows read are distinct stored rows. |
| ForecastStore.GetForecastKeepsLatest | routes/clima_routes.py:27-28 | A crossing row that is not read is no later than every row that is. |
| ForecastStore.ForecastTable.Find | routes/clima_routes.py:171-174 | The scan returns exactly the first index with the key. |
| ForecastStore.ForecastTable.UpsertDay | routes/clima_routes.py:170-192 | One loop iteration changes the table exactly as the upsert function does. |
| ForecastStore.ForecastTable.SaveDays | routes/clima_routes.py:166-200 | The table becomes the upsert of every day when the commit succeeds, and stays as it was when it fails. |
| ForecastStore.ForecastTable.Sync | routes/clima_routes.py:140-200 | The report and the new table are exactly those of the sync definition, and the table stays well formed. |
| ForecastStore.AutoSync | routes/clima_routes.py:52-60 | With no crossing, nothing is reported and nothing is written. Otherwise the job runs for the first crossing's id. |
| HoursPattern.SkipSpaces | routes/tomar_paso_routes.py:71 | Greedy `\s*` stops at the first position that is not whitespace, and everything it skipped is whitespace. |
| HoursPattern.SkipSpacesStopsAt | routes/tomar_paso_routes.py:71 | Greedy skipping over a run of whitespace stops exactly at the first non-whitespace character. |
| HoursPattern.MatchAtSound | routes/tomar_paso_routes.py:71 | Whatever the scanner finds at a position is a match of the pattern there. |
| HoursPattern.MatchAtComplete | routes/tomar_paso_routes.py:71 | Every match of the pattern at a position is the one the scanner finds, so each position has at most one match. |
| HoursPattern.SplitScans | routes/tomar_paso_routes.py:71 | Given any decomposition of a match into its pieces, the scanner follows it to its end. |
| HoursPattern.MatchAtIff | routes/tomar_paso_routes.py:71 | The scanner matches at a position exactly when the pattern has a match starting there. |
| HoursPattern.Leftmost | routes/tomar_paso_routes.py:105 | The search returns a position in range at which the condition holds. |
| HoursPattern.LeftmostReaches | routes/tomar_paso_routes.py:105 | If the condition holds somewhere in range, the search returns that position or an earlier one. |
| HoursPattern.SearchFrom | routes/tomar_paso_routes.py:105 | A found match starts at or after the given position, and its end is the scanner's end there. |
| HoursPattern.SearchFromReaches | routes/tomar_paso_routes.py:105 | If a match starts at k, searching from any earlier position finds one that starts at k or before it. |
| HoursPattern.SearchIsLeftmost | routes/tomar_paso_routes.py:105 | `re.search` finds a match exactly when the text has one. What it finds is a match, and no match starts before it. |
| HoursPattern.MatchShape | routes/tomar_paso_routes.py:71-108 | A match is at least 12 characters long, starts with four digits and ends with `HS` in either case, so `strip()` leaves it unchanged. |
| HoursPattern.OpeningHoursExample | routes/tomar_paso_routes.py:70-71 | In "0900 HS A 2100 HS", the search matches the whole text. |
| StatusExtraction.FirstWhere | routes/tomar_paso_routes.py:81-99 | `soup.find` returns the first element that satisfies the condition, and none exactly when no element does. |
| StatusExtraction.StatusFromFirstSpan | routes/tomar_paso_routes.py:67-96 | Without a status span the status is "Estado no encontrado" and the freshness keeps its initial text. Otherwise both come from the first status span. |
| StatusExtraction.FreshnessLaw | routes/tomar_paso_routes.py:88-94 | The freshness is the stripped next text, non-empty, exactly when that text is present and not all whitespace. Otherwise it is "Tiempo no visible en el nodo adyacente". |
| StatusExtraction.StatusClassIgnoresCase | routes/tomar_paso_routes.py:81 | The class pattern matches regardless of case: `label-SUCCESS` is a status class. |
| StatusExtraction.HoursFallbacks | routes/tomar_paso_routes.py:99-114 | The hours read "Etiqueta ... no encontrada" exactly when there is no label. Otherwise they come from the first label's next text. |
| StatusExtraction.DigitFirstIsNoFallback | routes/tomar_paso_routes.py:108-114 | Text starting with a digit is none of the hours fallback texts. |
| StatusExtraction.HoursMatchShape | routes/tomar_paso_routes.py:105-108 | Stored hours from a match are the matched text itself: at least 12 characters, four digits first, and `HS` last. |
| StatusExtraction.HoursMatchStartsWithDigit | routes/tomar_paso_routes.py:105-108 | Stored hours from a match start with a digit. |
| StatusExtraction.HoursFromTextNeverNoLabel | routes/tomar_paso_routes.py:101-112 | Reading a label's next text never yields the missing-label text. |
| StatusExtraction.HoursNoTextIff | routes/tomar_paso_routes.py:102-112 | The hours read "No se encontró texto adyacente" exactly when the label has no next text or an empty one. |
| StatusExtraction.HoursNoPatternIff | routes/tomar_paso_routes.py:104-110 | The hours read "Patrón de hora no encontrado" exactly when the next text is non-empty and holds no match. |
| StatusExtraction.HoursLeftmostMatch | routes/tomar_paso_routes.py:105-108 | The stored hours are the match that no other match starts before. |
| StatusExtraction.FetchFailureCollapses | routes/tomar_paso_routes.py:117-120 | On a fetch or parse error, the status is "Error de conexión/parsing", the freshness is the error text, and the hours are the connection fallback. |
| StatusStore.Stamp | routes/tomar_paso_routes.py:127-130 | The stamped row keeps its id and name, and stores the three texts and the page address. |
| StatusStore.RecordKeepsRows | routes/tomar_paso_routes.py:123-129 | An empty table gets one "Cristo Redentor" row. Otherwise the first row keeps its id and name, and every other row is unchanged. |
| StatusStore.RecordStoresSnapshot | routes/tomar_paso_routes.py:127-130 | Afterwards the first row holds exactly the extracted texts and the source address. |
| StatusStore.RecordPreservesWellFormed | routes/tomar_paso_routes.py:123-134 | Recording keeps ids and names unique. |
| StatusStore.RunsOnlyCreateFirstRow | routes/tomar_paso_routes.py:123-125 | However often the job runs, an empty table ends with one row and any other table keeps its size. |
| StatusStore.DegradedPageIsPersisted | routes/tomar_paso_routes.py:95-134 | A page without a status span is still written, with the not-found status and the initial freshness text. |
| StatusStore.StatusRunIdempotent | routes/tomar_paso_routes.py:58-136 | Running the job twice on the same page gives the same table as running it once. |
| StatusStore.PasoTable.First | routes/tomar_paso_routes.py:16-23 | The first row, or none exactly when the table is empty (the 404). |
| StatusStore.PasoTable.SyncStatus | routes/tomar_paso_routes.py:58-136 | The new table is exactly the status run on the old one: it stays well formed, and the row returned is the stored first row. |

## Left out

- HTTP, the feed's JSON decoding, the HTML parser and the scheduler are left out. Their outcomes are parameters: `FeedResponse`, `PageFetch`, the `localDate` function and the `commitOk` flag.
- The forecast job's request URL, API key, coordinates and time-out are not modelled. The status job's request is not modelled either.
- The JSON message texts, `to_dict` and the `dias_guardados` list are not modelled. The report is a `SyncOutcome` carrying the number of days saved.
- ForecastAggregation.DailyForecast: `round(..., 1)` is not modelled. Temperatures and speeds are exact `real` numbers, where the source uses binary floating point.
- A feed item that lacks `dt`, `main.temp`, `wind.speed` or `weather[0].description` raises an uncaught `KeyError` in the source. The model's samples always carry all four fields.
- StatusExtraction.Node: the next sibling of the status span or of the hours label is modelled as text or absent. A sibling that is an element makes the source raise `TypeError`, which its `except` branch turns into the connection-error texts. The model does not produce that case from a parsed page.
- ForecastStore.ForecastTable.Find (and `get_pronostico`'s query): identifiers are sequential numbers where the database generates keys. SQL ordering among rows with the same date is modelled as one fixed order.
- StatusStore.PasoTable.SyncStatus: a failed commit in the status job is uncaught in the source and is not modelled. Neither is the `timestamp` column.
- StatusStore.Paso: the crossing's `id` is a sequential number where the source uses a random UUID.
- Text.Lower and Text.Upper: case mapping covers ASCII and Latin-1 letters. Python's Unicode-wide case-insensitive matching also equates a few other letters, for example the dotless i with i. The long s, which matches `S` in the hours pattern, is covered. `capitalize` of characters whose upper case falls outside Latin-1, such as ß, ÿ and µ, is not modelled.
- HoursPattern.IsDigit: `\d` is modelled as the ASCII digits. Python's `\d` on text also matches other Unicode decimal digits.
- Console logging (`print`) in both jobs is not modelled.
- `public_api_paso`, `ver_paso`, the authenticated `actualizar` route, users, messages and profiles are outside the modelled core.
