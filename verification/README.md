# dashboard-comercial: the data logic of the sales dashboard

The dashboard reads a CSV of sales leads, cleans every row (agent, platform
and province labels), filters the rows by three drop-downs, and computes the
KPI cards and the charts from the filtered rows:

- the four funnel counts: leads, quotations (cotizaciones), commercial offers
  and sales;
- the closed visits;
- the cumulative funnel totals and the three conversion percentages;
- the most frequent province;
- the per-agent funnel table;
- the geographic distribution, with small provinces folded into Otro;
- the per-province chart of one chosen stage;
- the visit charts;
- the month charts, with a closing TOTAL line;
- the per-platform quality ranking.

This project models that logic as pure Dafny functions over a `seq<Row>` and
proves what each result means. It also proves how the charts add up: the
per-agent table, the per-province chart, the visit charts and the quality
ranking add up to their KPI counts; the geography chart adds up to the
number of rows; the month charts add up to the number of dated rows.

Modules, in dependency order:

- `Text`: the JavaScript string operations used. These are ASCII case
  mapping, `trim` (JavaScript whitespace), `includes`, and `split` on one
  character. `Join` is not used by the dashboard; it only states the round
  trip that pins `Split`.
- `Seqs`: filtering, counting and summing over sequences.
- `Grouping`: the `forEach` loops that fill a plain object keyed by a string,
  read back with `Object.entries`/`Object.values`. Groups appear in order of
  first appearance.
- `Sorting`: the `sort((a, b) => b.value - a.value)` calls, as a stable
  insertion sort, largest first.
- `Rows`: raw and cleaned rows, the three normalisers, and the per-row
  cleaning map.
- `Filtering`: the three drop-down filters.
- `Funnel`: the stage tests, the KPIs, the conversion percentages and the
  top province.
- `Breakdowns`: the per-agent table, the geography chart and the
  per-province chart.
- `Visits`: the two visit charts.
- `Timeline`: the month bucketing, the monthly trend and the per-month
  social-network chart.
- `Quality`: the quality ranking.

## Model

| member | source | states |
|---|---|---|
| Rows.NormalizeAgent | src/App.jsx:49-55 | A missing or empty agent gives the empty string. The trimmed code PM or IC, in any case, gives Paola or Irina. Any other name becomes its trimmed form with the first character upper-cased and every later character lower-cased. |
| Rows.AgentIdempotent | src/App.jsx:49-55 | Normalising an already normalised agent name gives it back unchanged. |
| Rows.AgentIgnoresCase | src/App.jsx:49-55 | Two agent names that agree after lower-casing normalise to the same label. |
| Rows.AgentIgnoresSurroundingSpace | src/App.jsx:49-55 | Surrounding whitespace does not change the agent label. |
| Rows.AgentTrimmed | src/App.jsx:49-55 | No agent label starts or ends with whitespace. |
| Rows.NormalizePlatform | src/App.jsx:58-65 | The label is always one of WhatsApp, Instagram, Facebook or Otro. It is WhatsApp exactly when the lower-cased, trimmed input is wp or whatsapp. Likewise ig/instagram give Instagram and fb/facebook give Facebook. Everything else, missing and empty input included, gives Otro. |
| Rows.ChannelsFixed | src/App.jsx:58-65 | Each of the four channel labels normalises to itself. |
| Rows.PlatformIdempotent | src/App.jsx:58-65 | Normalising an already normalised platform label gives it back unchanged. |
| Rows.PlatformIgnoresCase | src/App.jsx:58-65 | Two platform labels that agree after lower-casing name the same channel. |
| Rows.PlatformIgnoresSurroundingSpace | src/App.jsx:58-65 | Surrounding whitespace does not change the channel. |
| Rows.NormalizeProvinceAsWritten | src/App.jsx:68-71 | As written: a missing or empty province gives Sin Datos, and anything else gives its trimmed form. |
| Rows.ProvinceBlankAsWritten | src/App.jsx:68-71 | As written, a province of one space becomes the empty string, and a second pass turns that into Sin Datos. The corrected normaliser gives Sin Datos at once. |
| Rows.NormalizeProvince | src/App.jsx:68-71 | Corrected: the label is never empty and never padded. It equals the as-written label whenever the trimmed input is non-empty, and is Sin Datos otherwise. |
| Rows.ProvinceIdempotent | src/App.jsx:68-71 | The corrected province normaliser is idempotent. |
| Rows.CleanAsWritten | src/App.jsx:32-40 | As written: the province is the as-written label, trimmed, and every other field is cleaned exactly as by the corrected map. |
| Rows.AsWrittenCleanAgrees | src/App.jsx:32-40 | The as-written and the corrected cleaning give the same row exactly when the province is not blank. On a blank province the as-written row holds the empty string and the corrected one holds Sin Datos. |
| Rows.Clean | src/App.jsx:32-40 | Corrected cleaning (the province goes through the corrected normaliser). Each field is its raw cell put through that field's normaliser: the agent, platform and province normalisers, a trim of the event type and the date when present, and a trim of the visit with missing giving the empty string. A cleaned row has a channel label, a non-empty trimmed province, and a trimmed agent, event type, date and visit. The event type and date stay present exactly when they were present in the raw row. |
| Rows.CleanRows | src/App.jsx:32-40 | Corrected cleaning: one cleaned row per parsed row, in order, every one of them normalised. |
| Rows.CleanIdempotent | src/App.jsx:32-40 | Cleaning a cleaned row again with the corrected map gives the same row. |
| Filtering.FilteredData | src/App.jsx:74-81 | The shown rows are a subsequence of the data. A row is shown exactly when the agent, province and source criteria all hold, and then as many times as the data holds it. |
| Filtering.Refine | src/App.jsx:76-78 | One criterion on its own keeps a subsequence of exactly the rows that meet it, each as many times as the data holds it. |
| Filtering.RefineCommutes | src/App.jsx:74-81 | Two criteria applied one after the other give the same rows in either order. |
| Filtering.FilteredIsRefined | src/App.jsx:74-81 | Filtering equals applying the agent, the province and the source criteria one after the other. |
| Filtering.WildcardImposesNothing | src/App.jsx:76-78 | A Todos or Todas criterion removes no row. |
| Filtering.NoFilterKeepsAll | src/App.jsx:74-81 | With every drop-down on its wildcard, every row is shown. |
| Filtering.FilteredDataIdempotent | src/App.jsx:74-81 | Filtering the shown rows again with the same drop-downs changes nothing. |
| Funnel.OfferIsOfertaMention | src/App.jsx:94-97 | A row is in the offer stage exactly when its lower-cased event type contains "oferta". |
| Funnel.OfferCountIsOfertaCount | src/App.jsx:94-97 | Hence the offer count is the number of rows mentioning "oferta". |
| Funnel.ComputeKpis | src/App.jsx:84-148 | Each stage count and the visit count is the number of rows passing that test, and is at most the number of rows. The cumulative totals add up the later stages. Each conversion percentage is 0 when its base total is 0 and otherwise the next total as a percentage of its base, within [0, 100]. The top province is N/A without rows; otherwise it is the province of some row, and no province has more rows. |
| Funnel.FunnelChain | src/App.jsx:111-117 | totalLeads >= totalQuotes >= totalOffers >= sales >= 0. |
| Funnel.TotalLeadsBound | src/App.jsx:85-111 | A row counts once per stage it mentions, so the cumulative lead total is at most four times the number of rows. |
| Funnel.Rate | src/App.jsx:129-135 | A zero base gives 0. A part no larger than its base gives the part as a percentage of the base, between 0 and 100. |
| Funnel.TopProvinceEntry | src/App.jsx:119-125 | The first entry of the province counts, sorted largest first. It is absent exactly when there are no rows. Otherwise it holds the exact count of a province some row has, and no province has more rows. |
| Grouping.GroupBy | src/App.jsx:172-193 | The groups have distinct keys. Each group holds, in order, exactly the elements with its key, and is not empty. Every element's key has a group. |
| Grouping.CountBy | src/App.jsx:198-202 | One entry per distinct key, holding the number of elements with that key (at least one). Every element's key has its entry, and the entries add up to the number of elements. |
| Sorting.SortDesc | src/App.jsx:219 | The output is sorted by non-increasing value and is a rearrangement of the input. |
| Text.Split | src/App.jsx:300 | The number of pieces is one more than the number of separators. No piece contains the separator. Joining the pieces with the separator gives back the input. |
| Breakdowns.AgentPerformance | src/App.jsx:171-194 | One line per agent, with distinct names, and every row's agent (Sin Agente when empty) has a line. Each column counts that agent's rows in the column's stage. |
| Breakdowns.AgentColumnsSum | src/App.jsx:171-194 | Each stage column of the per-agent table sums to the number of rows in that stage. |
| Breakdowns.AgentColumnsMatchKpis | src/App.jsx:171-194 | The four per-agent columns sum to the leads, quotations, offers and sales KPIs. |
| Breakdowns.FoldSum | src/App.jsx:204-217 | Folding the small provinces into Otro keeps the total. |
| Breakdowns.FoldDistinct | src/App.jsx:204-217 | Folding entries with distinct names keeps the names distinct: no kept province is called otro in any case, so none clashes with the Otro entry. |
| Breakdowns.FoldOtherOnce | src/App.jsx:204-217 | After folding, at most one entry is called Otro. |
| Breakdowns.GeoDistribution | src/App.jsx:197-220 | The entry names are distinct. The chart is sorted largest first and adds up to the number of rows. No entry is zero, and Otro appears at most once. Every entry other than Otro is a province not called otro, with at least 10 rows and its exact count. Every such province has its entry. |
| Breakdowns.DatosPorProvincia | src/App.jsx:223-250 | The entry names are distinct and the chart is sorted largest first. Every value is positive and is its province's count among the rows of the chosen stage, and every province with a row in that stage has its entry. With no stage chosen the chart is empty. Otherwise the values add up to the KPI count of that stage. |
| Breakdowns.ChosenCount | src/App.jsx:226-238 | The included rows are exactly those in the selected stage, and none when the selector names no stage. |
| Visits.VisitasData | src/App.jsx:253-273 | The bars are a subsequence of Showroom, Fábrica and Ambas, in that order. Each kept bar is positive, and every kind with a visit keeps its bar. The bars add up to the closed visits. |
| Visits.VisitBarsSum | src/App.jsx:254-265 | The three kind counts together count every closed visit once. |
| Visits.VisitasPorAgente | src/App.jsx:276-293 | The chart is sorted largest first. Each bar is positive and counts that agent's closed visits. Every agent with a visit has a bar, and the bars add up to the closed visits. |
| Visits.VisitTotalsAgree | src/App.jsx:104-107 | Both visit charts add up to the totalVisitas KPI. |
| Timeline.MonthOf | src/App.jsx:299-302 | A row has a month exactly when its date has exactly two '/' separators. The month is the date after its first separator, and it holds a separator of its own. |
| Timeline.MonthlyTrend | src/App.jsx:296-306 | One entry per month, with distinct names, each holding the number of rows dated in it (at least one). Every dated row's month has its entry. The entries add up to the number of dated rows. |
| Timeline.MonthMixes | src/App.jsx:321-339 | One line per month, with distinct names. Each line counts, per channel, the dated rows of that month. Every dated row's month has its line. |
| Timeline.SocialByMonth | src/App.jsx:319-356 | The month lines followed by one TOTAL line, which counts the dated rows per channel. No month line is called TOTAL. |
| Timeline.TotalIsColumnSum | src/App.jsx:322-353 | Each column of the TOTAL line is the sum of that column over the month lines, and is the number of dated rows on that channel. |
| Timeline.TotalCoversDated | src/App.jsx:332-336 | For rows whose platform is one of the four channels (every cleaned row, as written or corrected), the four TOTAL columns add up to the number of dated rows. |
| Quality.Conversion | src/App.jsx:403-408 | 100 when there are quotations but no leads, and 0 when there are neither. Otherwise it is the quotations as a percentage of the leads. |
| Quality.Display | src/App.jsx:415 | The drawn bar is the conversion capped at 30: at most 30, at most the conversion, and equal to one of the two. |
| Quality.PlatformLines | src/App.jsx:384-419 | One line per platform label of some row, with distinct names. Each line counts that platform's leads and quotations and carries their conversion and capped bar. Every row's platform has its line. |
| Quality.QualityRanking | src/App.jsx:384-424 | The line names are distinct and the ranking is sorted by non-increasing conversion. Each line has a lead or a quotation and is right about its platform's rows. Every platform with a lead or a quotation has its line. |
| Quality.RankingMatchesKpis | src/App.jsx:384-424 | The ranking's leads and quotations add up to the leads and quotations KPIs, so dropping the inactive platforms loses no row. |

## Left out

- The React component is not modelled: hooks, state, collapse toggles, chart components and JSX are presentation only.
- The file input, `Papa.parse` and `console.log` calls are not modelled. The parsed CSV is a parameter: a sequence of raw rows whose cells are strings or missing.
- The extra CSV columns that the cleaning map copies through with `...row` are left out. Only the six columns the dashboard reads are modelled.
- `weeklyRhythm` is left out because it relies on JavaScript `Date` rollover and `getDay`.
- The month-sort comparators that build `Date` values are left out. `Timeline.MonthlyTrend` and `Timeline.MonthMixes` keep the months in order of first appearance, and their contracts say nothing about the order.
- `Timeline.SocialByMonth`: its month lines are `Timeline.MonthMixes` in order of first appearance, where the program sorts them by date before appending TOTAL (src/App.jsx:341-345). Rows dated 5/02/2024 then 5/01/2024 give 02/2024 first in the model and 01/2024 first in the program. The lines, their counts and the TOTAL line are the same; only their order differs.
- `Funnel.Rate`: the result is exact. The `toFixed(1)` rounding and the mix of string and number results are not modelled.
- `Quality.Conversion`: the result is exact, without the `toFixed(1)` rounding. `Quality.QualityRanking` therefore sorts on exact conversions, so two rates that round alike may be ordered differently.
- Case mapping is ASCII-only. For example, the accented `ó` of "cotización" is not case-mapped, and `toUpperCase` never expands a character.
- `Rows.Clean`: uses the corrected province normaliser, not the as-written one that line 36 calls. A province of whitespace only therefore becomes Sin Datos where the program leaves the empty string, so with the province filter on Sin Datos the model shows such a row and the program does not. `Rows.CleanAsWritten` models the program's map and `Rows.AsWrittenCleanAgrees` states exactly where the two differ.
- `Rows.CleanRows`: maps the corrected `Rows.Clean`, so it differs from the program on blank provinces as above.
- `Rows.CleanIdempotent`: holds of the corrected cleaning only. The program's map is not idempotent on a blank province, which becomes the empty string and then Sin Datos on a second pass (`Rows.ProvinceBlankAsWritten`).
- `Rows.Normalized`: its non-empty province holds of the corrected cleaning only.
- `Grouping.GroupBy`: keys are plain strings. JavaScript objects treat keys inherited from `Object.prototype` differently: a count under `"__proto__"` is lost, and one under `"constructor"` or `"toString"` starts from the inherited function and becomes a string. A province or agent with such a name breaks the sums the breakdown contracts state; the model does not reproduce this.
- `Grouping.CountBy`, `Breakdowns.AgentPerformance`, `Breakdowns.GeoDistribution`, `Breakdowns.DatosPorProvincia`, `Timeline.MonthMixes` and `Quality.PlatformLines` list their entries in order of first appearance. JavaScript lists integer-like object keys (an agent called "123", say) first. `Breakdowns.AgentPerformance` returns `Object.values` unsorted, so its order differs from the model's for such keys; the contracts of all of these state no order beyond the sort that follows, and that sort hides the difference except among equal counts.
- `Funnel.TopProvinceEntry`: only the maximality of the chosen province is stated. Which province wins a tie depends on JavaScript key order and is not stated.
- The filter drop-down options (`uniqueAgents`, `uniqueProvincias`) and the fixed `funnelData` array are not modelled, because they only feed the UI.
- The KPI leads count is the number of rows mentioning "lead", as the code computes it, not the number of all filtered rows.

## Findings

| source | as written | input that shows it | evidently intended | confidence | as-written member | corrected member |
|---|---|---|---|---|---|---|
| src/App.jsx:68-71 | The emptiness test runs before the trim, so a province of whitespace only becomes the empty string. The charts then key that row as Sin Datos, but the province drop-down has no entry for it, and filtering by Sin Datos does not show it. | province `" "` | A blank province is Sin Datos, like a missing one. | not executed; medium | Rows.ProvinceBlankAsWritten | Rows.NormalizeProvince |
