# RAICAT DNS pipeline and date-range resolver, modelled in Dafny

RAICAT is a Django backend that serves RIPE Atlas DNS measurements. This project models
two parts of it:

- **The per-country DNS pipeline of `utils.py`.**
  - `map_measurement_result_to_probe_info` builds one probe record from each parsed DNS result.
  - `merge_measurement_results` folds a day's measurements into one record per probe. It does
    this with a nested loop and a `for`/`else` search.
  - `compute_average_by_country` averages each probe's usable samples. It groups the probes by
    country code, converts the codes with `convert_two_letter_to_three_letter_code` and averages
    the non-zero probe averages of each group.
  - `check_dns_measurements` drives the merge and the grouping over the day's measurement list.
- **The date-range resolver `dns_data_line` of `views.py`.**
  - It answers a request for `[start, end]` from the in-memory cache `countries_data`.
  - It asks the fallback `dns_between_dates` for days the cache does not cover, and splices
    the pieces together.

How the model is built:

- Days are integers (days since 1970-01-01).
- `convert_to_timestamp` is not part of this model. The model assumes it is `day * 86400`,
  seconds at midnight UTC. This matches the
  values its tests expect (`tests.py:74-77`). The proofs rely only on the timestamp growing
  with the day (`Views.TimestampOrder`).
- Averages use Dafny's `real`.
- Python's `list.index` and slicing with negative and out-of-range bounds are written out in
  `lists.dfy`.
- The truthiness filters are written out in `averages.dfy` (numbers) and `utils.dfy` (samples
  that may be `None`).
- Every exception raised by the modelled code becomes a `Failure` of a `Result`:
  - `IndexError` on an empty cache, or on a parsed result with no responses;
  - `ValueError` from `.index`;
  - `TypeError` on a missing geolocation, on a failed measurement-list fetch, or on a failed
    results fetch inside `create_measurement_hash`;
  - `UnboundLocalError` when there are no measurements.
- An exception raised inside `create_measurement_hash` ends `check_dns_measurements` at that
  iteration. The model returns it from there (`Utils.FetchFailureRaises`).
- Each external service is a parameter of the model:
  - the RIPE Atlas fetch of a day's measurement list, as an `Option<seq<MeasurementId>>`;
  - `create_measurement_hash`, as a function from a measurement id to the probe records it
    returns or the exception it raises. `Utils.ProbesInformation` models the part of it that
    raises: the comprehension over the fetched results (`utils.py:68-73`);
  - `dns_between_dates`, as a function of two days;
  - `pycountry`, as a function from a code to `Found`/`NotFound`/`LookupError`.
- `merge_measurement_results` and `check_dns_measurements` are methods with loops. Each is proved
  equal to a specification function (`Utils.Merge` and `Utils.CheckDns`), and the properties are
  proved about those functions.

Files:

- `wrappers.dfy`: `Option` and `Result`.
- `lists.dfy`: Python list lookups and slices.
- `averages.dfy`: `compute_average` and the non-zero filter.
- `utils.dfy`: the pipeline.
- `views.dfy`: the resolver.
- `scenarios.dfy`: concrete cases.
  - The four cache situations, the timestamps and the averages come from the repository's tests.
  - The probe and country examples (`DroppedSamplesExample`, `SentinelKeptExample`,
    `UnweightedCountryExample`) are our own.

Where the code departs from what its branch comments and the averaging intent suggest, the model
follows the code:

- **Straddling requests.** A request that starts before the cache and ends after it is
  recomputed in full by the fallback. It is not spliced around the cache: the `elif` guard at
  `views.py:46-50` already requires the end to be inside the cache, so the interior splice at
  lines 57-62 is never reached. The model keeps that branch as written.
  - Were the branch reachable, a one-day cache would give its day twice there: once from each
    fallback call.
- **The -1 sentinel.** Samples are filtered by Python truthiness (`utils.py:113` and `:127`).
  This drops `None` and `0` but keeps a `-1` sentinel, which then enters the averages.
- **The cache's first day.** When the request starts before the cache, the record for the
  cache's first day comes from the fallback, not from the cache (`views.py:54-55`).

## Model

| member | source | states |
|---|---|---|
| Lists.IndexOf | src/Backend/RAICAT/views.py:35 | `list.index`: no result exactly when the value is absent; otherwise a valid position holding the value, with no earlier occurrence (the first match) |
| Lists.Slice | src/Backend/RAICAT/views.py:39 | Python slicing: length and elements fixed by the clamped, end-relative bounds; an in-range slice is the plain subsequence |
| Lists.SliceFrom | src/Backend/RAICAT/views.py:43 | `xs[lo:]`: the suffix from `lo`, empty once `lo` is past the end |
| Views.Names | src/Backend/RAICAT/views.py:29 | `cached_dates` has one entry per cached record, the record's day, in cache order |
| Views.DnsDataLine | src/Backend/RAICAT/views.py:17-64 | the resolver fails with `EmptyCache` (the `IndexError` of `countries_data[-1]`) exactly when the cache is empty |
| Views.TimestampOrder | src/Backend/RAICAT/views.py:18-28 | comparing timestamps orders days the same way, both strict and non-strict |
| Views.CachedIndex | src/Backend/RAICAT/views.py:35-37 | in a well-formed cache, the lookup of any day between the first and last cached days succeeds at offset `day - first` |
| Views.StartAndEndCached | src/Backend/RAICAT/views.py:31-40 | start inside the cache span and end not after it: the answer is the cache slice between the two lookup positions, and the fallback is never consulted (same answer for every fallback) |
| Views.StartCachedEndBeyond | src/Backend/RAICAT/views.py:41-45 | start cached, end past the cache: the cache from the start's position, then the fallback's `last..end` without its first record |
| Views.StartBeforeEndCached | src/Backend/RAICAT/views.py:46-56 | start before the cache, end inside it: the fallback's `start..first`, then the cache from its second record through the end's position |
| Views.OtherwiseRecomputed | src/Backend/RAICAT/views.py:63-64 | a request entirely before or after the cache, or one that straddles it, is answered by the fallback for the whole range |
| Views.UncachedDateRaises | src/Backend/RAICAT/views.py:35-37 | a start inside the span that is not a cached name raises `DateNotInCache(start)`; such an end in a lookup branch also raises |
| Views.CacheHitCorrect | src/Backend/RAICAT/views.py:31-40 | both ends cached: the answer is the cache's records for `start..end`, one per day |
| Views.ExtendAfterCorrect | src/Backend/RAICAT/views.py:41-45 | the cached tail and the fallback's new days join without a gap or a repeated day |
| Views.ExtendBeforeCorrect | src/Backend/RAICAT/views.py:46-56 | the fallback's days and the cached days join without a gap or a repeated day |
| Views.DnsDataLineCorrect | src/Backend/RAICAT/views.py:17-64 | from a well-formed cache and a fallback that returns one record per day, every request with `start <= end` succeeds with exactly one record per day of `start..end`, ascending |
| Views.SingleCachedDay | src/Backend/RAICAT/views.py:31-40 | a one-day request for a cached day returns that day's cached record alone |
| Views.OneRecordPerDayAscending | src/Backend/RAICAT/views.py:29 | a run of one record per day is strictly ascending, so every cached name occurs once |
| Averages.Sum | src/Backend/RAICAT/utils.py:105 | definition of `sum` |
| Averages.Average | src/Backend/RAICAT/utils.py:102-105 | `compute_average`: 0 for an empty list, otherwise the value whose product with the length is the sum |
| Averages.NonZero | src/Backend/RAICAT/utils.py:127 | the `if item["rtt_result"]` filter never lengthens the list; `NonZeroMembers` and `NonZeroCounts` state what it keeps |
| Averages.NonZeroCounts | src/Backend/RAICAT/utils.py:127 | the filter keeps each non-zero value as often as it occurs and no zero, so its length is the count of non-zero values |
| Averages.NonZeroMembers | src/Backend/RAICAT/utils.py:127 | the `if item["rtt_result"]` filter keeps exactly the non-zero values |
| Averages.SumNonZero | src/Backend/RAICAT/utils.py:127 | dropping zeros does not change the sum |
| Averages.AverageWithin | src/Backend/RAICAT/utils.py:102-105 | the average of a non-empty list lies between any lower and upper bound of its elements |
| Averages.AverageOfConstant | src/Backend/RAICAT/utils.py:102-105 | the average of copies of one value is that value |
| Utils.ProbesInformation | src/Backend/RAICAT/utils.py:68-73 | a failed results fetch raises `ResultsUnavailable` (`TypeError`); otherwise it fails with `NoResponse` exactly when some result has no response, and succeeds with one record per result, in order, each `map_measurement_result_to_probe_info` of its result |
| Utils.MapResults | src/Backend/RAICAT/utils.py:69-73 | the comprehension over a fetched list: `NoResponse` exactly when some result has no response, otherwise each record is the mapping of its result, in order |
| Utils.MapMeasurementResultToProbeInfo | src/Backend/RAICAT/utils.py:55-59 | fails (`IndexError`) exactly when there is no response; otherwise keeps the probe id and holds exactly one sample, the first response's time |
| Utils.ConvertTwoLetterToThreeLetterCode | src/Backend/RAICAT/utils.py:154-162 | a code results exactly when the lookup finds a country, and it is that country's alpha-3 code; `None` when the lookup finds nothing or raises `LookupError` |
| Utils.Truthy | src/Backend/RAICAT/utils.py:113 | definition of `[res for res in rtt_results if res]`; it never lengthens the list; `TruthyMembers` and `TruthyCounts` state what it keeps |
| Utils.TruthyCounts | src/Backend/RAICAT/utils.py:113 | the filter keeps each present non-zero sample as often as it occurs and no zero; its length is the number of samples minus the `None`s and zeros |
| Utils.ProbeAverage | src/Backend/RAICAT/utils.py:112-114 | definition: `compute_average` of the probe's truthy samples |
| Utils.TruthyMembers | src/Backend/RAICAT/utils.py:113 | `[res for res in rtt_results if res]` keeps exactly the present, non-zero samples |
| Utils.TruthyAppend | src/Backend/RAICAT/utils.py:92-94 | filtering commutes with `extend`: the usable samples of merged samples are those of each part, in order |
| Utils.Rows | src/Backend/RAICAT/utils.py:110-118 | the per-probe rows fail with `MissingGeolocation` exactly when some probe has no geolocation; otherwise one row per probe, in order, holding the probe's average and country code |
| Utils.GroupKeys | src/Backend/RAICAT/utils.py:109-120 | `group_by` keys are distinct and are exactly the country codes occurring among the rows |
| Utils.Group | src/Backend/RAICAT/utils.py:109-120 | definition: the `rtt_result`s of the rows of one country, in order; never longer than the rows |
| Utils.ByCountry | src/Backend/RAICAT/utils.py:122-129 | the keys after `map_keys` are exactly the converted group keys; a later key converting to the same code overwrites an earlier one |
| Utils.AverageByCountry | src/Backend/RAICAT/utils.py:101-132 | fails with `MissingGeolocation` exactly when some probe has no geolocation |
| Utils.GroupOfRows | src/Backend/RAICAT/utils.py:109-127 | the group of a country holds the averages of exactly the probes located there, in order |
| Utils.ByCountryAt | src/Backend/RAICAT/utils.py:122-129 | after `map_keys`/`map_values`, a code converted from one key only holds the average of that key's non-zero group values |
| Utils.AverageByCountryKeys | src/Backend/RAICAT/utils.py:122-124 | the result's keys are exactly the converted country codes of the probes, `None` included |
| Utils.AverageByCountryValue | src/Backend/RAICAT/utils.py:125-129 | a country's value is the unweighted mean of the non-zero averages of the probes located there, if no other observed code converts to the same key |
| Utils.GroupKeysOfOneCountry | src/Backend/RAICAT/utils.py:109-120 | rows all from one country group under that single key |
| Utils.AverageByCountrySingle | src/Backend/RAICAT/utils.py:101-132 | probes all in one country give a one-entry result: that country's alpha-3 code mapped to the mean of the non-zero probe averages |
| Utils.CountryValueWithin | src/Backend/RAICAT/utils.py:125-129 | a country's value lies between any bounds of its non-zero probe averages |
| Utils.MergeOne | src/Backend/RAICAT/utils.py:90-97 | definition of one outer pass: extend the first earlier record of the probe, or append the incoming record |
| Utils.MergeInto | src/Backend/RAICAT/utils.py:89-97 | definition of the outer loop: `MergeOne` for each incoming record, left to right |
| Utils.Merge | src/Backend/RAICAT/utils.py:85-98 | definition of `merge_measurement_results`: the incoming list itself when there are no earlier records, `MergeInto` otherwise |
| Utils.MergeMeasurementResults | src/Backend/RAICAT/utils.py:85-98 | the nested loop computes `Merge`: incoming records in order, each extending the first earlier record of its probe or appended |
| Utils.FindProbe | src/Backend/RAICAT/utils.py:90-97 | the `for`/`else` search: the first index of a record of the probe, or the length when the `else` branch runs |
| Utils.MergeStep | src/Backend/RAICAT/utils.py:90-97 | the search's outcome is exactly the extend-or-append step of `MergeOne` |
| Utils.MergeOneKeepsExisting | src/Backend/RAICAT/utils.py:89-97 | one step keeps every existing record in place with its probe and geolocation, its samples as a prefix, and adds at most one record |
| Utils.MergeOneSamples | src/Backend/RAICAT/utils.py:89-97 | after one step, the probe's samples are its earlier ones plus the incoming record's, and other probes are unchanged |
| Utils.MergeIntoSamples | src/Backend/RAICAT/utils.py:89-98 | after the outer loop, each probe's samples (those of its first record) are its earlier samples followed by all its incoming samples, in order |
| Utils.MergeIntoKeepsExisting | src/Backend/RAICAT/utils.py:89-98 | merging never removes, reorders or relocates an earlier record |
| Utils.MergeConservesSamples | src/Backend/RAICAT/utils.py:85-98 | merging conserves samples: the total is the earlier total plus the incoming total |
| Utils.MergeIds | src/Backend/RAICAT/utils.py:85-98 | the merged probes are exactly the earlier probes together with the incoming ones |
| Utils.MergeKeepsDistinct | src/Backend/RAICAT/utils.py:85-98 | merging into a non-empty list of distinct probes keeps one record per probe |
| Utils.EmptyPreviousKeepsRepeats | src/Backend/RAICAT/utils.py:86-87 | with no earlier records the incoming list is returned with repeated probes left apart; the same list merged into an earlier record of the probe is folded into it |
| Utils.Iteration | src/Backend/RAICAT/utils.py:148-150 | one loop pass: an exception from `create_measurement_hash` is raised as is; otherwise the merged records, which the grouping accepts, or the grouping's `MissingGeolocation` |
| Utils.LoopResults | src/Backend/RAICAT/utils.py:137-150 | definition: the passes over the ids left to right, stopping at the first exception |
| Utils.CheckDns | src/Backend/RAICAT/utils.py:135-151 | a result is returned only for a fetched, non-empty measurement list whose loop ran without an exception; the loop's exception otherwise, `MeasurementsUnavailable` or `NoMeasurements` |
| Utils.CheckDnsMeasurements | src/Backend/RAICAT/utils.py:135-151 | the loop computes `CheckDns`: a failed fetch and an empty list fail, an exception in any pass ends the call, otherwise the last grouping |
| Utils.LoopStep | src/Backend/RAICAT/utils.py:148-150 | one more id adds one `Iteration` to the loop so far |
| Utils.LoopFailureIsFinal | src/Backend/RAICAT/utils.py:148-151 | an exception part-way through the loop is the outcome of the whole loop |
| Utils.FetchFailureRaises | src/Backend/RAICAT/utils.py:148 | a `create_measurement_hash` that raises, reached without an earlier exception, is what `check_dns_measurements` raises |
| Utils.MergedResults | src/Backend/RAICAT/utils.py:148-149 | reference definition, when every fetch returns: the left fold of `Merge` over the fetched measurements |
| Utils.MergeKeepsMissing | src/Backend/RAICAT/utils.py:149 | a probe without geolocation stays among the results through a merge |
| Utils.LoopMatchesMerged | src/Backend/RAICAT/utils.py:137-150 | when every fetch returns, the loop holds the merged results, or stopped with `MissingGeolocation` on results whose final merge also lacks a geolocation |
| Utils.CheckDnsAllFetched | src/Backend/RAICAT/utils.py:135-151 | when every fetch returns, `check_dns_measurements` is `compute_average_by_country` of all the merged measurements, failure included |
| Utils.MergedResultsConservesSamples | src/Backend/RAICAT/utils.py:137-149 | the records handed to the grouping hold every sample of every fetched measurement |
| Utils.FetchedSamples | src/Backend/RAICAT/utils.py:148 | definition: the number of samples the fetched measurements carry |
| Scenarios.TimestampExamples | src/Backend/RAICAT/tests.py:72-78 | 2022-01-01 is 1640995200 and the next day 1641081600 |
| Scenarios.WholeCacheScenario | src/Backend/RAICAT/tests.py:295-319 | requesting exactly the three cached days returns the cache |
| Scenarios.DayAfterScenario | src/Backend/RAICAT/tests.py:321-340 | one day past the cache: the cache, then the fallback's record for the new day |
| Scenarios.DayBeforeScenario | src/Backend/RAICAT/tests.py:342-360 | one day before the cache: the fallback's two records, then the rest of the cache |
| Scenarios.BothSidesScenario | src/Backend/RAICAT/tests.py:361-381 | one day on both sides: the fallback's whole range, the cache unused |
| Scenarios.AverageExamples | src/Backend/RAICAT/tests.py:38-44 | `compute_average` of the test lists is 3, 1 and 0 |
| Scenarios.DroppedSamplesExample | src/Backend/RAICAT/utils.py:113 | a zero and a `None` sample are left out of a probe's average (10, 0, `None`, 50 average to 30) |
| Scenarios.SentinelKeptExample | src/Backend/RAICAT/utils.py:113 | a `-1` sample is kept in a probe's average |
| Scenarios.UnweightedCountryExample | src/Backend/RAICAT/utils.py:101-132 | two French probes averaging 20 and 40 and one without a usable sample give `{"FRA": 30}`: the unweighted mean of the non-zero probe averages, not the pooled 25 |

## Left out

- `JsonResponse`, the `dns_data` and `ipv6_data` views and `urls.py` routing: the resolver
  returns the list that is placed under `"data"`.
- `get_measurement_results`, `get_measurements_collection_by_date_and_type` and
  `get_probes_geolocation_list_by_id` are RIPE Atlas network calls, and their results are
  parameters. This leaves out the 100-id chunking and the skipping of failed chunks.
- `create_measurement_hash`: only its comprehension over the fetched results is modelled
  (`Utils.ProbesInformation`). The geolocation attachment (`utils.py:74-81`) and the
  `find_object_by_id` search are not modelled; they stay inside the `HashFetcher` parameter.
- Exceptions raised by the network library itself (connection errors and the like) are not
  modelled. The fetches either return their data or report failure as `None`.
- `DnsResult` parsing and its `is_error` filter: a parsed result is the `ParsedDnsResult`
  datatype.
- `pycountry`: the country database is a parameter. Its `alpha_2` matching rules are not
  modelled.
- `pydash` internals: `group_by`, `map_keys` and `map_values` are written out with dict
  semantics (first-appearance key order; a later key overwrites an earlier one that converts
  to the same code).
- Floating point: averages are exact reals, so rounding is not modelled.
- Utils.MergeMeasurementResults: merges values, not Python lists, so it does not model
  aliasing. In the source the first merge returns `measurement_hash` itself. Later merges
  `extend` and `append` that same list, and `extend` the `rtt_results` lists inside it, in
  place.
- `countries_data` is only read by the resolver, so it is a parameter.
- `convert_to_timestamp`, `dns_between_dates`, `prepare_results_for_frontend`,
  `check_as_for_probes` and the IPv6 helpers are not part of this model. `views.py` imports
  them, and the resolver takes the fallback as a parameter. Days are integers, so malformed or
  non-canonical date strings are not modelled.
- The React frontend.
