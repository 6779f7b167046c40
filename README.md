# claude-insights: a verified model of the session pipeline

claude-insights turns Claude session logs into an HTML report. It works in three phases:

- **Discover and clean.** It finds the session logs (`*.jsonl`) under the projects directory and turns each one into a role-tagged plain-text transcript.
- **Extract facets.** It packs transcripts into batches and sends each batch to the Gemini CLI. It parses the per-session "facets" from the reply and caches each facet with the mtime of its source log.
- **Report.** It aggregates the cached facets into counters and weekly rows and asks Gemini for a report.

This project models the pipeline logic between the filesystem and the language-model subprocess in Dafny. Directory listings, file contents and replies enter the model as values. `json.loads` is an oracle `Parser = string -> Option<Json>`, where `None` is a `JSONDecodeError`. Uncaught Python exceptions are modelled as `Failure` results, not excluded by preconditions.

| file | module | models |
|---|---|---|
| wrappers.dfy | `Wrappers` | `Option`, `Result` |
| json.dfy | `Json` | decoded JSON values, Python truthiness, `dict.get`, hashable dict keys (`True == 1 == 1.0`) |
| text.dfy | `Text` | `str.strip`, `split`, `join`, `startswith`, `in`, ASCII `lower`/`upper`, `replace`, code-point order |
| seqs.dfy | `Seqs` | flattening, the stable descending sort by a key, counters built key by key, dict insertion order |
| discovery.dfy | `Discovery` | `discover_sessions` |
| cleaner.dfy | `Cleaner` | `clean_transcript` |
| cache.dfy | `Cache` | `filter_cached` |
| aggregate.dfy | `Aggregate` | `compute_aggregate_stats` |
| temporal.dfy | `Temporal` | `compute_temporal_stats` |
| names.dfy | `Names` | `demangle_project_name` |
| projects.dfy | `ProjectList` | `list_projects` |
| batching.dfy | `Batching` | `make_batches`, `build_batch_prompt` |
| facetparse.dfy | `FacetParse` | `parse_facets_response` |
| driver.dfy | `BatchDriver` | `process_batch` |
| report.dfy | `Report` | the parts of `generate_report` that compute values: compact summaries, fence stripping of the reply, the result of the call, the report file name |

How the source's loops and sorts appear in the model:

- Each loop that appends or counts is a `method` with a `while` loop. The method is proved equal to a specification function on sequences, and the properties are proved about that function.
- `make_batches` keeps its `batches`/`current_batch`/`current_chars` state. Its loop invariant equates that state with a step function (`Batching.Place`) folded over the items seen so far. A separate induction proves the greedy packing invariant of that fold. A further lemma shows the packing is unique, so the sequence of batches is determined by the input alone.
- Python's `list.sort(reverse=True)` with a key is stable. It is modelled as a stable insertion sort (`Seqs.SortDesc`). The model proves that result is sorted and a permutation of its input. It also proves that elements with equal keys keep their relative order.
- The retry loop of `process_batch` is a `method` over the per-attempt verdicts (`BatchDriver.RetryLoop`). Each verdict comes from the call oracle and the parser (`BatchDriver.Judge`).

Where the design description and the code differ, the model follows the code:

- The design lists backoff delays of 30, 60 and 120 seconds. With three attempts the code sleeps at most twice, for 30 s and then 60 s (gemini.py:206-251), so 120 s is never used (`BatchDriver.ProcessedBounds`).
- The design says the cache check fails open on every read error, but the code catches decoding errors only (see Findings).
- The docstring of `demangle_project_name` (sessions.py:333) maps `-Users-yulong-code-papers-sandbagging-detection` to `papers/sandbagging-detection`. The code splits on every `-` and joins the rest with `/` (sessions.py:335-343), which gives `papers/sandbagging/detection`. The model follows the code: by `Names.HumanNameNoDash`, a name that does not end in `-` demangles to one with no `-` left in it.

## Model

| member | source | states |
|---|---|---|
| Json.HashKey | claude_insights/sessions.py:252 | a value used as a dict key raises exactly when it is a list or a dict; a string stands for itself |
| Seqs.SortDescSorted | claude_insights/sessions.py:74 | the descending sort by a key yields non-increasing keys |
| Seqs.SortDescPermutes | claude_insights/sessions.py:74 | the sort returns a permutation of its input (same multiset) |
| Seqs.SortDescStable | claude_insights/sessions.py:370 | for every key value, the elements carrying it appear in the sorted result in their original order (stability) |
| Seqs.Tally | claude_insights/sessions.py:361-363 | the counter built by `+= 1` per element holds exactly the elements seen, each with its multiplicity, which is at least one |
| Seqs.TallySum | claude_insights/sessions.py:361-363 | the values of that counter sum to the number of elements counted |
| Seqs.FirstSeen | claude_insights/sessions.py:366 | dict iteration order lists each key of the input exactly once and nothing else |
| Seqs.FirstSeenOrder | claude_insights/sessions.py:366 | keys are listed in the order of their first appearance in the input |
| Discovery.ScanProject | claude_insights/sessions.py:50-72 | the inner loop over one project's logs returns that project's selected descriptors in glob order |
| Discovery.WalkProjects | claude_insights/sessions.py:42-72 | the outer loop visits only directories whose name contains the filter and concatenates their descriptors in walk order |
| Discovery.DiscoverSessions | claude_insights/sessions.py:22-79 | the result is the walk output sorted newest first and then capped. It is non-increasing in mtime and every entry passes every filter. With no truthy limit it is a permutation of everything found; with a positive limit its length is `min(limit, found)` |
| Discovery.ProjectSessionsSound | claude_insights/sessions.py:50-72 | every descriptor from a selected project has no `subagents` in its path, a size of at least 100 and an mtime not before the cutoff |
| Discovery.ProjectSessionsComplete | claude_insights/sessions.py:50-72 | every log file that passes the per-file checks yields its descriptor |
| Discovery.FoundExactly | claude_insights/sessions.py:42-72 | the walk output holds exactly the descriptors of selected logs in scanned directories: all are eligible and none is missed |
| Discovery.DiscoveredNewestFirst | claude_insights/sessions.py:74-77 | the returned sessions are ordered by mtime, newest first, whether or not the cap applies |
| Discovery.DiscoveredEligible | claude_insights/sessions.py:42-79 | every returned session passes the project filter, the `subagents` check, the size bound and the cutoff |
| Discovery.DiscoveredUncapped | claude_insights/sessions.py:76-77 | when `limit` is `None` or `0`, nothing is dropped: the result is a permutation of what was found |
| Discovery.DiscoveredCapped | claude_insights/sessions.py:74-77 | a positive limit keeps exactly the `min(limit, found)` newest entries of the sorted list |
| Cleaner.Truncate | claude_insights/sessions.py:125-126 | a text of at most 20,000 characters is unchanged. A longer one becomes its first 20,000 characters followed by the truncation marker |
| Cleaner.ScanNext | claude_insights/sessions.py:93-135 | the fold over the log lines advances by exactly one step per line |
| Cleaner.CleanTranscript | claude_insights/sessions.py:82-144 | the loop over the raw lines returns what the fold specification `Cleaning` gives, including each exception the source raises |
| Cleaner.ErrorsCountUndecodable | claude_insights/sessions.py:94-101 | the error counter equals the number of non-blank lines that fail to decode |
| Cleaner.NoiseEffect | claude_insights/sessions.py:103-106 | a record whose type is a noise type contributes neither a line nor a timestamp |
| Cleaner.SilentStep | claude_insights/sessions.py:94-106 | a blank line or a noise record leaves the whole accumulator (lines, timestamps, errors) unchanged |
| Cleaner.SilentLinesInvisible | claude_insights/sessions.py:94-106 | removing every blank line and noise record from the log does not change the fold |
| Cleaner.SilentLinesIgnored | claude_insights/sessions.py:94-144 | removing every blank line and noise record from the log does not change the cleaned result |
| Cleaner.PartLinesTagged | claude_insights/sessions.py:128-135 | list content yields at most one line per part. Each line starts with `[ROLE] ` and is no longer than the tag plus a truncated text |
| Cleaner.PartLinesSucceed | claude_insights/sessions.py:128-135 | under a string role, list content raises exactly when some `type == "text"` part has a text that is not a string |
| Cleaner.PartLinesAreTexts | claude_insights/sessions.py:128-135 | otherwise line `k` is `[ROLE] ` followed by the truncated `k`-th non-blank stripped text of a `type == "text"` part: other parts and blank texts give no line |
| Cleaner.PyMinIsLeast | claude_insights/sessions.py:138 | for string timestamps `min` returns one of them and none is smaller in code-point order |
| Cleaner.PyMaxIsGreatest | claude_insights/sessions.py:139 | for string timestamps `max` returns one of them and none is greater |
| Cleaner.TimestampBounds | claude_insights/sessions.py:108-139 | `start_ts`/`end_ts` are `None` exactly when no timestamp was collected. Otherwise they are the least and greatest collected timestamps |
| Cleaner.NoRecordsEmptyTranscript | claude_insights/sessions.py:93-142 | a log with no decodable non-blank line, wholly corrupt or empty, cleans to `("", None, None)` |
| Cache.FilterCached | claude_insights/sessions.py:147-175 | with `force` the input is returned unchanged; otherwise the result is the in-order filter of sessions whose cache entry is not a hit |
| Cache.PendingExactly | claude_insights/sessions.py:162-175 | a session is kept exactly when it is in the input and its cache file is missing, unreadable, or does not decode to an object recording its mtime |
| Cache.PendingIdempotent | claude_insights/sessions.py:162-175 | filtering a second time against the same cache changes nothing |
| Cache.SavedFacetIsHit | claude_insights/sessions.py:167-170 | a cached facet object whose `_source_mtime` equals the log's mtime makes the session skipped |
| Cache.TouchedLogIsPending | claude_insights/sessions.py:167-173 | a cached facet with any other `_source_mtime` keeps the session |
| Cache.SkipAgrees | claude_insights/sessions.py:163-172 | where the test as written returns, it agrees with the corrected test; where it raises, the corrected test does not skip |
| Cache.NonObjectCacheRaises | claude_insights/sessions.py:165-172 | a cache file holding a JSON list makes the test as written raise; the corrected test keeps the session |
| Cache.UnreadableCacheRaises | claude_insights/sessions.py:165-172 | a cache file that cannot be read makes the test as written raise; the corrected test keeps the session |
| Aggregate.AddCounts | claude_insights/sessions.py:246-249 | adding one counter into another covers the keys of both |
| Aggregate.AddInto | claude_insights/sessions.py:246-249 | the inner `for k, count in ….items()` loop computes the key-wise counter sum |
| Aggregate.Views | claude_insights/sessions.py:245-268 | on success there is one view per facet, and element `j` is the view extracted from facet `j` |
| Aggregate.AddFacet | claude_insights/sessions.py:245-285 | one pass of the loop body updates every counter and the per-project record as the view prescribes |
| Aggregate.ComputeAggregateStats | claude_insights/sessions.py:227-286 | the loop returns the folded statistics, or the exception of the first facet that raises |
| Aggregate.StatsTotal | claude_insights/sessions.py:235 | `total_sessions` is the number of facets |
| Aggregate.CountersSum | claude_insights/sessions.py:251-258 | the `outcomes`, `helpfulness` and `session_types` counters each sum to the number of facets |
| Aggregate.ProjectsSum | claude_insights/sessions.py:268-284 | per-project counts sum to the number of facets; per-project `friction_count` sums to `sessions_with_friction` |
| Aggregate.ProjectOutcomesSum | claude_insights/sessions.py:276-278 | within each project, the outcome counts sum to that project's count |
| Aggregate.ViewFriction | claude_insights/sessions.py:260-262 | a facet counts as having friction exactly when its `friction_counts` is truthy |
| Aggregate.StatsFriction | claude_insights/sessions.py:260-262 | `sessions_with_friction` is the number of views with friction |
| Aggregate.ViewsFriction | claude_insights/sessions.py:260-262 | that number equals the number of facets whose `friction_counts` is truthy |
| Aggregate.AggregateConservation | claude_insights/sessions.py:234-286 | on success: total equals the number of facets; each session counter and the project counts sum to it; friction totals equal the number of facets with friction |
| Aggregate.AddCountsSum | claude_insights/sessions.py:246-249 | adding one counter dict into another, key by key, adds their totals |
| Aggregate.SummedCounts | claude_insights/sessions.py:245-266 | the totals of `goal_categories` and `friction_types` equal the sums of every facet's `goal_categories` and `friction_counts` totals |
| Aggregate.ViewsFail | claude_insights/sessions.py:245-268 | extraction fails exactly when some facet raises |
| Aggregate.AggregateFails | claude_insights/sessions.py:245-268 | `compute_aggregate_stats` raises exactly when some facet is not a dict, has a non-numeric counter, or an unhashable key field |
| Aggregate.AggregateEmpty | claude_insights/sessions.py:234-243 | no facets give zero totals and empty maps |
| Temporal.RoundHalfEven | claude_insights/sessions.py:317 | rounding moves its argument by at most one half |
| Temporal.SuccessRateBounds | claude_insights/sessions.py:317 | a rate of fully achieved sessions among `count` lies in 0..100 |
| Temporal.SampleDated | claude_insights/sessions.py:301-309 | a facet is counted in a week exactly when it is a dict with a non-empty string `start_timestamp` that the week function accepts |
| Temporal.GroupByWeek | claude_insights/sessions.py:300-313 | the grouping loop returns the weekly fold specification, or the exception of the first facet that raises |
| Temporal.WeeklyWellFormed | claude_insights/sessions.py:300-313 | every week holds at least one session, no more fully achieved sessions than sessions, and between one and `count` projects |
| Temporal.WeeklySum | claude_insights/sessions.py:300-313 | the week counts sum to the number of facets with an accepted start timestamp |
| Temporal.WeekRows | claude_insights/sessions.py:315-323 | rows have strictly ascending week keys; each row is its week's row, and every week gets a row |
| Temporal.TemporalRows | claude_insights/sessions.py:315-325 | sorted rows' counts sum to the dated facets; each row has count at least 1, rate in 0..100, and 1..count active projects |
| Temporal.ComputeTemporalStats | claude_insights/sessions.py:289-325 | succeeds exactly when the grouping does; rows are ascending, cover every week, sum to the dated facets and are bounded |
| Names.FirstMarkerFrom | claude_insights/sessions.py:338-343 | the first part that is a marker without regard to case and has at least one part after it, or none when no such part exists |
| Names.DemangleProjectName | claude_insights/sessions.py:328-348 | the method's first-marker scan returns the name the specification `HumanName` gives |
| Names.HumanNameAfterMarker | claude_insights/sessions.py:339-343 | after the first marker with a non-empty remainder, the name is the remaining parts joined by `/` |
| Names.HumanNameFallback | claude_insights/sessions.py:345-347 | with no such marker, the name is the last part, or the whole encoded name when that part is empty |
| Names.HumanNameNoDash | claude_insights/sessions.py:335-348 | an encoded name that does not end in `-` demangles to a name with no `-` left in it |
| ProjectList.ProjectKey | claude_insights/sessions.py:363 | counting a facet raises exactly when it is not a dict or its project is a list or dict; a string project counts as itself |
| ProjectList.ProjectKeys | claude_insights/sessions.py:362-363 | one key per facet, or the first exception |
| ProjectList.ProjectKeysFails | claude_insights/sessions.py:362-363 | the counting loop raises exactly when some facet raises |
| ProjectList.RowsShape | claude_insights/sessions.py:365-368 | rows are built exactly when every key is a string; row `i` is `(demangled, encoded, count)` of the `i`-th key |
| ProjectList.UnsortedFails | claude_insights/sessions.py:361-368 | the unsorted rows exist exactly when every counted key is a string |
| ProjectList.UnsortedRows | claude_insights/sessions.py:361-368 | every row names a counted project, its demangled name and its number of facets |
| ProjectList.UnsortedOnce | claude_insights/sessions.py:365-368 | every counted project has a row and no project has two |
| ProjectList.UnsortedFirstAppearance | claude_insights/sessions.py:365-368 | before sorting, rows follow the projects' first appearance among the facets |
| ProjectList.ListedFails | claude_insights/sessions.py:351-371 | `list_projects` returns exactly when every facet is a dict with a string project |
| ProjectList.ListedSorted | claude_insights/sessions.py:370 | the returned rows have non-increasing counts |
| ProjectList.ListedPermutes | claude_insights/sessions.py:370 | the sorted rows are a permutation of the unsorted rows |
| ProjectList.ListedStable | claude_insights/sessions.py:370 | rows with equal counts keep their first-appearance order |
| ProjectList.ListedRows | claude_insights/sessions.py:361-371 | each returned row carries a counted project, its demangled name and its exact facet count |
| ProjectList.ListedCovers | claude_insights/sessions.py:361-371 | every facet's project has a row |
| ProjectList.ListedOnce | claude_insights/sessions.py:365-370 | no project is listed twice |
| ProjectList.CountProjects | claude_insights/sessions.py:361-363 | the counting loop yields the first-appearance order and the tally of the facets' keys, or the first exception |
| ProjectList.NameProjects | claude_insights/sessions.py:365-368 | the row-building loop yields the rows the specification gives |
| ProjectList.ListProjects | claude_insights/sessions.py:351-371 | the method returns the specified sorted rows, or the exception raised |
| Batching.StepOversize | claude_insights/gemini.py:104-110 | an oversize session flushes the open batch and then goes alone into a batch of its own, keeping the packing invariant |
| Batching.StepStart | claude_insights/gemini.py:112-117 | when the open batch is full or would exceed the character limit, it is closed and a new one starts with the session |
| Batching.StepJoin | claude_insights/gemini.py:118-120 | otherwise the session joins the open batch within both limits |
| Batching.PlaceFilling | claude_insights/gemini.py:101-120 | one loop iteration keeps the invariant: order kept, open batch within limits, closed batches well formed and greedily closed |
| Batching.PlaceAllFilling | claude_insights/gemini.py:101-120 | the invariant holds after any prefix of the items |
| Batching.MakeBatches | claude_insights/gemini.py:95-125 | the batches flatten back to the input in order. Every batch is non-empty, holds at most 12 sessions and at most 700,000 characters unless it is a lone session over 200,000. Every batch was closed only when the packing rule required it |
| Batching.FirstNotShorter | claude_insights/gemini.py:112-117 | of two greedy packings of the same items, neither first batch is shorter than the other |
| Batching.GreedyUnique | claude_insights/gemini.py:95-125 | there is exactly one greedy packing of a sequence of sessions, so the output of `make_batches` is determined by those properties |
| Batching.ConcatPromptParts | claude_insights/gemini.py:130-135 | joining the list of prompt parts gives the facet prompt, a blank line and each session's segment in order |
| Batching.BuildBatchPrompt | claude_insights/gemini.py:128-135 | the prompt is the facet prompt, `"\n\n"`, then for each session in order `===SESSION_BOUNDARY::id===\n`, its transcript and `"\n\n"` |
| Batching.SegmentAt | claude_insights/gemini.py:131-134 | the segment of the `k`-th session sits between those of the sessions before and after it |
| Batching.SegmentsLength | claude_insights/gemini.py:131-134 | the segments add 27 marker characters per session to the transcript and id lengths |
| FacetParse.DropFenceAround | claude_insights/gemini.py:148-149 | lines that end in a closing fence line lose the opening and the closing line, and nothing else |
| FacetParse.DropOpenerOnly | claude_insights/gemini.py:148-152 | when the last line does not strip to a fence, only the opening line is dropped |
| FacetParse.UnfencedPlain | claude_insights/gemini.py:144-153 | a stripped text without an opening fence is left alone |
| FacetParse.UnfencedRoundTrip | claude_insights/gemini.py:144-153 | for a stripped body `t`, fence stripping turns `` ```json\n `` + `t` + `` \n``` `` back into `t` |
| FacetParse.UnfencedUnclosed | claude_insights/gemini.py:143-153 | a reply that opens with a fence line but has no closing fence gives the stripped text after the opening line |
| FacetParse.DepthIsBalance | claude_insights/gemini.py:168-174 | the scanner depth before position `n` is the number of `{` minus the number of `}` so far |
| FacetParse.Opener | claude_insights/gemini.py:169-171 | a position at positive depth has an opening `{` at depth 0 before it, with no return to depth 0 in between |
| FacetParse.SpansExactly | claude_insights/gemini.py:166-181 | the candidate spans are exactly the top-level objects: a `{` opened at depth 0 up to the `}` that first returns the depth to 0 |
| FacetParse.SpansOrdered | claude_insights/gemini.py:166-181 | candidates end inside the text, are disjoint and appear in text order |
| FacetParse.SalvageObjects | claude_insights/gemini.py:165-182 | the fallback loop keeps the candidates that decode, in order, and drops the rest |
| FacetParse.DecodeFacets | claude_insights/gemini.py:155-185 | the decoding step on the unfenced text returns the specification `FacetsOfText` |
| FacetParse.ParseFacetsResponse | claude_insights/gemini.py:138-185 | `parse_facets_response` returns the specification `FacetsOf`: fence removal, then the whole parse or the fallback |
| FacetParse.WholeValueWins | claude_insights/gemini.py:155-162 | when the whole text decodes, a list is returned as it is and an object becomes a one-element list. Any other value is an error, and the fallback is not tried |
| FacetParse.SalvageOutcome | claude_insights/gemini.py:163-185 | when the whole text does not decode, the result is the salvaged objects if there are any, and otherwise the "no objects" error |
| BatchDriver.Backoff | claude_insights/gemini.py:209 | the wait is an entry of the backoff table, clamped to its last entry |
| BatchDriver.BackoffDoubles | claude_insights/gemini.py:21 | each wait doubles the previous one until the table runs out, then stays |
| BatchDriver.SessionMapKeys | claude_insights/gemini.py:204 | the session map has exactly the batch's session ids as keys |
| BatchDriver.SessionMapLast | claude_insights/gemini.py:204 | each id maps to the last item of the batch that carries it |
| BatchDriver.Enrich | claude_insights/gemini.py:259-262 | a matched facet gains `project`, `start_timestamp`, `end_timestamp` and `_source_mtime` from its session; every other field is kept |
| BatchDriver.ReconciledFails | claude_insights/gemini.py:255-256 | matching raises exactly when some facet is not a dict or has an unhashable `session_id` |
| BatchDriver.ReconciledSound | claude_insights/gemini.py:253-264 | every result names a session of the batch and is the enrichment of a facet carrying that id |
| BatchDriver.ReconciledComplete | claude_insights/gemini.py:253-264 | every facet whose id matches a session appears, enriched, among the results; the others are dropped, never reassigned |
| BatchDriver.MatchFacets | claude_insights/gemini.py:253-264 | the matching loop returns the reconciled pairs, or its exception |
| BatchDriver.LatencyWithoutStats | claude_insights/gemini.py:270-276 | an envelope without `stats` reports a latency of 0 seconds |
| BatchDriver.Judge | claude_insights/gemini.py:207-250 | a call error is always retried. An accepted attempt carries the envelope and either the expected number of facets or is the last attempt |
| BatchDriver.MismatchRetriedUntilLast | claude_insights/gemini.py:238-250 | a count mismatch is retried exactly when attempts remain |
| BatchDriver.Attempt | claude_insights/gemini.py:207-250 | the checks of one attempt compute that attempt's verdict |
| BatchDriver.FinishAttempt | claude_insights/gemini.py:253-278 | an accepted attempt returns the reconciled facets, or the exception of the matching or latency code |
| BatchDriver.RetryLoop | claude_insights/gemini.py:206-251 | the retry loop's results, call count and waits are those of the retry specification `RunFrom` |
| BatchDriver.ProcessBatch | claude_insights/gemini.py:188-280 | `process_batch` on the batch prompt returns the specified run |
| BatchDriver.RunFromBounds | claude_insights/gemini.py:206-251 | from attempt `a`, between 1 and `3 - a` calls are made, and the waits are the table entries between them |
| BatchDriver.ProcessedBounds | claude_insights/gemini.py:206-251 | `process_batch` makes between 1 and 3 calls and waits 30 s, then 60 s, between them |
| BatchDriver.RunFromEnds | claude_insights/gemini.py:206-280 | every attempt before the last was retried. The last one ends the run with `[]` after three failures, with its exception, or with its accepted facets |
| BatchDriver.AllAttemptsFail | claude_insights/gemini.py:206-236 | three failing attempts give `[]` after 3 calls with waits 30 and 60 |
| BatchDriver.EveryCallFails | claude_insights/gemini.py:206-220 | if every call errors, `process_batch` returns `[]` after 3 calls with waits 30 and 60 |
| BatchDriver.FinishStamped | claude_insights/gemini.py:253-264 | each pair of an accepted attempt names a session of the batch and carries that session's project and mtime |
| BatchDriver.ProcessedBelongsToBatch | claude_insights/gemini.py:253-278 | every result of the whole retry run belongs to the batch and carries its provenance |
| Report.KeepTruthyExactly | claude_insights/gemini.py:340 | the dict comprehension keeps exactly the entries with a truthy value |
| Report.KeepTruthyRanked | claude_insights/gemini.py:340 | the filter keeps the order of the entries |
| Report.CompactSummaryExactly | claude_insights/gemini.py:324-341 | a compact summary holds exactly the listed summary fields that the facet has with a truthy value |
| Report.CompactSummaryOrder | claude_insights/gemini.py:324-341 | summary fields appear in the listed order, each at most once |
| Report.CompactAllShape | claude_insights/gemini.py:322-341 | summaries exist exactly when every facet is a dict, one per facet in order |
| Report.CompactFacets | claude_insights/gemini.py:321-341 | the summary loop returns the specified summaries, or the exception |
| Report.ReportRoundTrip | claude_insights/gemini.py:367-374 | a reply of an opening fence line, a body and a closing fence gives back the body |
| Report.ReportUnclosed | claude_insights/gemini.py:367-374 | an opened but unclosed reply gives the text after the first line |
| Report.ReportOneLine | claude_insights/gemini.py:367-374 | a single fence line gives the empty report |
| Report.ReportOutput | claude_insights/gemini.py:360-374 | a call error gives no report. A dict envelope without `response` gives the empty report. A non-dict envelope or a non-string response raises. A string response gives the reply with its fence removed |
| Report.SlugSafe | claude_insights/gemini.py:382 | the slug has no `/`, no space and no upper-case ASCII letter |
| Report.SlugIdempotent | claude_insights/gemini.py:382 | slugging a slug changes nothing |
| Report.ReportNameFlat | claude_insights/gemini.py:380-385 | the report file name is a single path component whenever the timestamp has no `/` |

## Left out

- `call_gemini` (subprocess, temporary file, timeout, decoding of stdout) is the `Gemini` oracle, one outcome per attempt. Its error strings are never empty, so `if error:` is modelled as always taken.
- `check_gemini_cli`, `save_facet`, the directory creation, writing of the report file and the `report_latest.html` symlink are filesystem and environment effects with nothing to compute. A saved facet appears only as a cache file `Cache.SavedFacetIsHit` reads.
- `time.sleep` is modelled by the list of waits it would be given. All progress printing and verbose output are left out, including `batch_chars`, the unmatched-id report, `matched_ids` and the `elapsed // 1000` message. Latency is still computed, because its exceptions end `process_batch`.
- `json.loads` is the `Parser` oracle and `json.dumps` is left out. The assembly of the report prompt from `json.dumps` of the statistics is not modelled.
- `load_all_facets` is not modelled: it is directory reading plus date filtering. `compute_aggregate_stats`, `compute_temporal_stats` and `list_projects` take its output as a given list of facets.
- The directory walk and `stat` of `discover_sessions` are a given listing in sorted order. The missing-directory `sys.exit` is left out.
- Discovery: the source reads `time.time()` again for each log file (sessions.py:61-62), so the cutoff can move while the walk runs. The model takes one cutoff instant for the whole walk.
- Reading a cache file (`read_text()`, sessions.py:167) is a given `CacheFile`: its text, or `Unreadable`. The kind of error (`OSError`, `UnicodeDecodeError`) is not distinguished; either one escapes the handler at sessions.py:171 (see Findings).
- JSON numbers and file mtimes are exact reals. Float rounding, `NaN`/`Infinity` and the int/float distinction are not modelled. The `str(v)` rendering of a non-string `[SUMMARY]` value is the `Show` oracle, so `1` and `1.0` are not told apart.
- `datetime.fromisoformat` and `strftime("%G-W%V")` are the `WeekOf` parameter, which returns the week key or nothing; `datetime.now` enters as the timestamp string of the report name.
- Temporal.RoundHalfEven: the division is computed on exact reals, not floats, and the contract bounds the rounding to half a unit without stating the tie-to-even choice.
- Cleaner.PyMinIsLeast: Python ordering is modelled for strings and for numbers and bools. Any other mix of timestamp types is a `TypeError`, although Python can also order lists pairwise.
- Text.Lower: `str.lower`/`str.upper` are modelled for ASCII letters only. They are used for the role tag, the marker test and the slug, and Python's versions are Unicode-aware.
- Report.Slug: lowercases ASCII letters only, for the same reason.
- The exact text of exception messages is not modelled: a `Failure` carries a descriptive string.
- Python's sort algorithm is not modelled, only its result, by a stable insertion sort with the same output.
- Facet dicts are updated in place in `process_batch`, and the model returns enriched copies instead. Aliasing between the facet list and the results is not captured.
- BatchDriver.RetryLoop: the loop consumes a sequence of per-attempt verdicts. `ProcessBatch` builds that sequence from the oracle applied to the one prompt, so a call that depends on earlier calls' side effects is not represented.
- All of `cli.py`: argument parsing, mode dispatch, browser opening and phase orchestration.

## Findings

| source | as written | input that shows it | evidently intended | confidence | as-written member | corrected member |
|---|---|---|---|---|---|---|
| claude_insights/sessions.py:165-172 | the cache test catches only `JSONDecodeError` and `KeyError`, then calls `.get` on whatever the cache file decodes to; `read_text()` sits inside the `try`, but its `OSError` and `UnicodeDecodeError` are not caught | a cache file `<id>.json` containing `[]`, or one that cannot be read or decoded as text | an unusable cache entry means "process the session again" (fail open), as for a file that does not decode | medium, not executed | Cache.SkipAsWritten, Cache.NonObjectCacheRaises, Cache.UnreadableCacheRaises | Cache.Skip, Cache.FilterCached, Cache.PendingExactly |
