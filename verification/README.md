# What the PostgreSQL adapter keeps, proved

The adapter takes Prometheus samples, keeps them in two PostgreSQL tables, and answers remote-read and Thanos
StoreAPI requests from them. This project models its two halves and the tables between them, and proves what
comes back out of what was put in.

`dafny verify dfyconfig.toml` checks everything.

## How it is laid out

**Writing.** `MetricString` prints a metric as its canonical text and takes the text apart again. `WritePath` is the
write pipeline of one replica as a transition system: any number of parsers, each cut at every access to the shared
map, counter and buffers, one saver cut at every access, crashes and restarts. A `Setting` says how many parsers
there are, whether appends may come in while a save is under way, whether label inserts may fail for a reason other
than a duplicate, and whether label values may be ones that Go's `%q` does not write as JSON. `WriteInvariant`,
`WriteRuns`, `WriteBatches`, `WriteGuarantees`, `WriteAllocation`, `WriteRecords`, `WriteSafety`, `WriteExactness`
and `WriteUntilRestart` are the proofs over all its runs. `MetricWriter` is the same code as an object with fields
and loops, proved against the functions the transition system is shown to reach, alive or dead, whatever fails.

**Reading.** `QueryBuilder` compiles matchers to SQL text; `Sql` reads that text back, clause by clause, and gives
its conditions their three-valued meaning; `Regex` has the pattern fragment RE2 and PostgreSQL share, with its
concrete syntax, and RE2 itself as an arbitrary constant that reads this fragment so; `Matching` compares with
PromQL. `Pushdown` settles matchers on external labels. `Storage` says what PostgreSQL may answer, a whole query
being taken from the cross product of the two tables by its own clauses, and what the adapter makes of it.
`SeriesBuilder` and `Chunks` group, merge, sort and cut the rows; `StoreApi` and `LabelMetadata` put the server
together; `RemoteRead` is the other read path.

**Both.** `ReadBack` joins the two: what a run has stored is what a request is owed.

`Text`, `Utf8`, `Json`, `GoQuote`, `Sorting`, `Bags`, `LabelSets`, `Domain` and `Timestamps` are shared.

Text is valid UTF-8, seen as Unicode scalar values; times are unbounded integers with the int64 wrap-around
written out; a float64 is its bits, which are only copied. The database is a value whose answers are assumed to
come from the tables (`Storage.AnswersFrom`) and which may fail at any call.

## What came out

- From push to answer: in the safe settings below, after any run, a Series request is answered with exactly the
  stored samples that, as they were pushed, fall into its window and satisfy the matchers, each once, under its
  metric's labels and with its value (`ReadBack.ServedAsPushed` with the contract of `StoreApi.Series`). Its time is
  the pushed one exactly within plus or minus 9223372036854 ms (`ReadBack.PushedTime`).
- Over every run, every pushed sample is appended, left out because its text is refused, lost with the process, or
  still in flight, once (`WriteRecords.EverySampleAccountedFor`); every appended row is stored, buffered, failed, late
  or crashed, once (`WriteGuarantees.EveryRowAccountedFor`).
- Stored samples keep their label rows, and are never served under another series, in exactly these settings: no
  parser at all, or one parser, appends kept out of running saves, no failing label insert, and label values that
  `%q` writes as JSON. Every other setting has a run, from an empty database, that stores a sample without a label
  row, and after a restart gives its id to another series. Two parsers suffice: the second finds the id the first
  has published, and its sample can be saved before the first has buffered the label row. The defaults of
  `DESIGN.md` (one parser, one writer) are on the safe side of this line as far as the parsers go; nothing in the
  adapter keeps appends out of a running save.
- Whatever the setting, no stored sample is served under another series until the process has been restarted
  (`WriteUntilRestart.FaithfulUntilRestart`): before that, an orphaned one is only missing. For this the printed text
  has to tell all series apart, and it does, whatever the values (`MetricString.TextIdentifiesSeries`).
- Whatever the setting, no label insert ever conflicts with a stored row, so the branch of `save` that lets
  duplicate-key errors pass is never taken by a single replica.
- A metric with a name and no other label makes the parser slice a text at index -1: the process dies. The comment
  in `transformToMetricString` says this should not occur; the model has it occur. A batch kills the process exactly
  when it holds such a metric (`WriteRuns.DiesExactly`, `BatchKills`), and in no run does a parser die of anything else
  (`WriteGuarantees.DeathIsBare`). What any other batch does is said in closed form (`WriteBatches.AbsorbsExactly`).
- Times outside plus or minus 9223372036854 ms are stored at another time, by the wrapping product.
- The remote-read use case drops the first sample of every series: it appends it to a time series other than the
  one it has just put in its map. It answers as meant exactly when no query selects a row.
- An external label named `__name__` breaks the agreement of the pushed-down query with the merged series, and
  nothing else does. An external label that overrides a stored one, or a stored label named `__name__`, can give two
  series one label set, and nothing else does.
- LabelNames reports `__name__` even when every fitting series has an empty name, and external labels even when
  their value is empty; these are the only names it reports that no series exposes. Every name it reports has values
  in LabelValues, but for `__name__` in that case, and every name with values is reported.
- Label names are printed as they are. The UTF-8 names of Prometheus 3 may hold quotes and braces, and then two
  metrics can print alike and share an id (`MetricString.QuoteInNameCollides`, `BraceInNameCollides`). With names of the
  legacy syntax this does not happen (`MetricString.TextIdentifiesSeries`).

## Model

| member | source | states |
|---|---|---|
| MetricString.PrintLabels | pkg/infrastructure/metricwriter/postgresql.go:356-362 | whatever the order the map is visited in, the label texts are the same bag, one per label other than the name |
| MetricString.TransformToMetricString | pkg/infrastructure/metricwriter/postgresql.go:348-377 | the text is a function of the metric alone, whatever the map order: the name and the sorted labels in braces, the bare name, or `{}` |
| Json.QuoteReadsBack | pkg/infrastructure/metricwriter/postgresql.go:360 | what `%q` writes for a value reads as a JSON string for that value exactly when every character is one JSON escapes alike; otherwise no JSON reader takes it, whatever follows |
| GoQuote.QuotedReads | pkg/infrastructure/metricwriter/postgresql.go:360 | for every value, a reader of Go's quoted form gets the value back from what `%q` writes and ends where it ends, whatever follows |
| MetricString.DecodeExact | pkg/infrastructure/metricwriter/postgresql.go:290-309 | for every metric with plain names: splitting the printed text at its first brace and decoding gives back exactly name and labels, or finds no brace for a bare name, or is refused for unsafe values |
| MetricString.TextIdentifiesSeries | pkg/infrastructure/metricwriter/postgresql.go:348-377 | metrics with plain names print alike exactly when they have the same labels, the same name, a missing one reading as empty, and both or neither only a name: whatever their values hold |
| MetricString.PrintedInFull | pkg/infrastructure/metricwriter/postgresql.go:338-377 | one metric with two labels and a quote in a value, printed character by character |
| MetricString.QuoteInNameCollides | pkg/infrastructure/metricwriter/postgresql.go:356-377 | with a quote in a label name two metrics print alike: any two labels, and the one label whose name holds the text of the first up to the name of the second |
| MetricString.BraceInNameCollides | pkg/infrastructure/metricwriter/postgresql.go:364-377 | with braces in a metric name, a metric without other labels prints like a series with any labels |
| MetricWriter.Database.InsertLabel | pkg/infrastructure/metricwriter/postgresql.go:43-50 | an insert is kept back exactly for a stored text, refused exactly for another stored id or another stored name with these labels, or fails, or adds the row at the end; nothing else changes the table |
| MetricWriter.Database.CopyRows | pkg/presentation/database/postgresql.go:204-241 | the values grow by what the commit stores: all rows in order when it counts them all, otherwise an error, before the commit with nothing stored or after it with whatever it stored |
| MetricWriter.Writer.constructor | pkg/infrastructure/metricwriter/postgresql.go:91-98 | a writer starts with nothing registered and nothing buffered |
| MetricWriter.Writer.RegisterExistingMetrics | pkg/infrastructure/metricwriter/postgresql.go:120-159 | every text read is known under the id of its last row and nothing else is known; the counter is one above the highest of zero and the ids read, which is one of them; or the cast error of the first row that is not readable |
| WriteInvariant.MaxIdAttained | pkg/infrastructure/metricwriter/postgresql.go:128-155 | the highest id of a table is one of its ids, or zero |
| WriteInvariant.RegisteredTakesLast | pkg/infrastructure/metricwriter/postgresql.go:120-159 | for any table, even with a text twice: every text is known, under the id of its last row |
| MetricWriter.Writer.Announce | pkg/infrastructure/metricwriter/postgresql.go:281-311 | a new text gets the counter's id and is published before it is taken apart; only a text that decodes gets a label row |
| MetricWriter.Writer.Resolve | pkg/infrastructure/metricwriter/postgresql.go:269-313 | the id a sample is stored under, if any, as the sequential look-up-or-allocate gives it |
| MetricWriter.Writer.ParseSample | pkg/infrastructure/metricwriter/postgresql.go:265-321 | one sample does to map, counter, label buffer and batch what absorbing it does |
| MetricWriter.Writer.ParseBatch | pkg/infrastructure/metricwriter/postgresql.go:258-326 | with plain names and braces in every registered text the process dies exactly when some metric has a name and no other label; a batch without one, whatever is registered, leaves map, counter and buffers as AbsorbsExactly says, its value rows joining the buffer all at once |
| WriteBatches.AbsorbsExactly | pkg/infrastructure/metricwriter/postgresql.go:258-326 | a batch in closed form: the new series get the counter's ids in order of first appearance and no text changes its id; a label row for each new series whose values print as JSON; a value row, with its series' id, its stored time and its value, for every sample in order but the first of a new series whose values do not |
| MetricWriter.Writer.SaveLabelRows | pkg/infrastructure/metricwriter/postgresql.go:201-225 | label rows are inserted in order up to the first failure that is not a duplicate |
| MetricWriter.Writer.Save | pkg/infrastructure/metricwriter/postgresql.go:186-245 | without an error all buffered values are stored; a failed label leaves the values alone, a failed copy adds what the commit stored; which error, exactly; the labels are inserted up to the first failure; both buffers end empty; and when the copy stores all or nothing this is the save that WriteRuns.SaveReaches shows to be a run |
| WriteRuns.BatchReaches | pkg/infrastructure/metricwriter/postgresql.go:258-326 | for a batch that does not kill the process: the steps of one parser, run without a break, end where absorbing the batch ends |
| WriteRuns.DiesExactly | pkg/infrastructure/metricwriter/postgresql.go:290-292 | while every known text holds a brace, a batch with plain names dies exactly when it holds a metric with a name and no other label |
| WriteRuns.BatchKills | pkg/infrastructure/metricwriter/postgresql.go:290-292 | a batch that dies: the steps of one parser, run without a break, bring the process down, with all it had buffered |
| WriteRuns.SaveReaches | pkg/infrastructure/metricwriter/postgresql.go:186-245 | the saver's steps, run without a break and with any label inserts and copy failing, insert the labels up to the first failure, store the values if nothing failed, and empty the buffers |
| WriteInvariant.StepKeeps | pkg/infrastructure/metricwriter/postgresql.go:120-328 | every step of every goroutine, crash and restart keeps the invariant: distinct ids and texts, an injective map, one lock holder, ids below the counter, label rows in the buffers agreeing with the map |
| WriteGuarantees.InsertsNeverConflict | pkg/infrastructure/metricwriter/postgresql.go:201-225 | in every run the row about to be inserted conflicts with no stored row: not by id, not by text, not by name and labels |
| WriteGuarantees.AllocationIsAtomic | pkg/infrastructure/metricwriter/postgresql.go:269-313 | at every step of a parser, in any state that keeps the invariant: either it gets an id and map and counter change as an atomic get-or-allocate has it, or nothing of them changes |
| WriteAllocation.RunsRefineAllocator | pkg/infrastructure/metricwriter/postgresql.go:269-313 | every run, with any number of parsers, saves, crashes and restarts, refines one atomic allocator: it answers all look-ups of the run in order with the ids the parsers got, and ends with their map and counter |
| WriteGuarantees.IdsAreABlock | pkg/infrastructure/metricwriter/postgresql.go:281-288 | in every run the map is injective and the ids since startup are the whole block from the seed to the counter, but for one taken and not yet stored; the seed is one, or one above the id of a stored row |
| WriteGuarantees.StepKeepsIds | pkg/infrastructure/metricwriter/postgresql.go:269-313 | while the process lives no text changes its id |
| WriteGuarantees.DeathIsBare | pkg/infrastructure/metricwriter/postgresql.go:290-292 | in every state of every run, a parser's next access kills the process exactly when it takes apart the text of a metric with a name and no other label |
| WriteGuarantees.StoredIdsAreForever | pkg/infrastructure/metricwriter/postgresql.go:120-158 | a stored label row stays, and no later step, crash or restart gives its text another id or its id another text |
| WriteGuarantees.EveryRowAccountedFor | pkg/infrastructure/metricwriter/postgresql.go:186-245 | in every run, as bags: rows appended are rows stored, buffered, failed, late and crashed; nothing is stored more often than it was appended |
| WriteGuarantees.NothingLateWithoutOverlap | pkg/infrastructure/metricwriter/postgresql.go:194-198 | with appends kept out of running saves no row is ever dropped as late |
| WriteSafety.RunGood | pkg/infrastructure/metricwriter/postgresql.go:120-328 | in a safe setting every run keeps every value row backed by a label row that says the metric it was pushed with |
| WriteExactness.SafeSettingsExactly | pkg/infrastructure/metricwriter/postgresql.go:109-328 | over all runs from truthful tables: always backed, and never served under another series, if and only if the setting is safe |
| WriteExactness.RaceOrphan | pkg/infrastructure/metricwriter/postgresql.go:287-309 | with two parsers, a run that stores a sample whose label row is not stored |
| WriteExactness.OverlapOrphan | pkg/infrastructure/metricwriter/postgresql.go:187-198 | with appends between the two copies of a save, such a run |
| WriteExactness.LabelFaultOrphan | pkg/infrastructure/metricwriter/postgresql.go:216-224 | with a failing label insert, such a run |
| WriteExactness.UnsafeValueOrphan | pkg/infrastructure/metricwriter/postgresql.go:287-301 | with a value that does not decode, such a run |
| WriteExactness.OrphanIsAdopted | pkg/infrastructure/metricwriter/postgresql.go:120-158 | after a restart the id of such a sample goes to the next new series, which then answers for it |
| WriteUntilRestart.FaithfulUntilRestart | pkg/infrastructure/metricwriter/postgresql.go:109-328 | in every setting, whatever the values: no run with one start serves a stored sample under another series |
| Timestamps.StoredInstantExact | pkg/infrastructure/metricwriter/postgresql.go:318-336 | a sample is stored at its own time exactly within plus or minus 9223372036854 ms, and always at some time within |
| Timestamps.StoredInstantWraps | pkg/infrastructure/metricwriter/postgresql.go:318-336 | every sample is stored at the whole millisecond, toward 1970, of its time in nanoseconds taken into the int64 range by a multiple of 2^64 |
| Timestamps.UnixMilliRoundsDown | pkg/presentation/storeapi/series.go:98 | the millisecond served is the one the stored instant lies in, before 1970 too |
| Timestamps.BoundsOfTheCalendar | pkg/infrastructure/querybuilder/sql.go:15-22 | the two clamp bounds are the first second of year 1 and the last of year 9999, counted in days with leap years |
| Timestamps.TimeSurvives | pkg/presentation/storeapi/series.go:98 | a time comes back from the StoreAPI unchanged exactly within those bounds, and remote read always agrees on stored times |
| Timestamps.TimestampLiteral | pkg/infrastructure/querybuilder/sql.go:221-232 | the literal says the bound, or the nearer end of the range that can be written |
| Timestamps.ClampingSelectsTheSame | pkg/infrastructure/querybuilder/sql.go:213-232 | for every window, clamping its bounds selects the same stored times exactly for times strictly between the two ends |
| Timestamps.ClampingIsMonotone | pkg/infrastructure/querybuilder/sql.go:221-232 | clamping keeps the order of bounds |
| Domain.CreateOrderedKeys | pkg/domain/model.go:91-100 | the keys of the map, each once, strictly ascending byte by byte, whatever the map order |
| Utf8.BelowIsByteOrder | pkg/domain/model.go:91-100 | one string is below another exactly when at the first byte that differs its UTF-8 form is smaller, or it is a proper prefix |
| Domain.Scan | pkg/domain/model.go:49-89 | the label names are those of the column, each with its string, or the empty one for a JSON null; a NULL column has none; a value of another type is one error and a text that does not decode the other |
| Domain.KeyBytesInjective | pkg/domain/model.go:106-118 | two keys are equal exactly for the same name and label list, when no string holds byte 0xFF |
| Domain.SeparatorInValueCollides | pkg/domain/model.go:106-118 | with byte 0xFF in a value, two different label lists share a key |
| Domain.KeyIdentifiesSeries | pkg/domain/model.go:106-118 | for scanned labels, keys are equal exactly for the same name and label map |
| Regex.AnchoredParses | pkg/infrastructure/querybuilder/sql.go:209-211 | the anchored text parses as the pattern's own expression between anchors, whatever the pattern holds |
| Regex.AnchoringIsFullMatch | pkg/infrastructure/querybuilder/sql.go:205-211 | searching the anchored text is matching all of the pattern, for every pattern text of the fragment |
| Regex.BareAnchorsOvermatch | pkg/infrastructure/querybuilder/sql.go:206-208 | anchors without the group select texts that the pattern does not match, for any two branches |
| QueryBuilder.LiteralReadsBack | pkg/infrastructure/querybuilder/sql.go:164-166 | a value with its quotes doubled reads back as itself and ends where it should |
| QueryBuilder.EscapingCommutesWithMarshalling | pkg/infrastructure/querybuilder/sql.go:183-193 | marshalling what was escaped is escaping what was marshalled |
| QueryBuilder.PairReadsBack | pkg/infrastructure/querybuilder/sql.go:188-192 | the containment literal decodes to the object of that one label and value |
| QueryBuilder.LabelCondition | pkg/infrastructure/querybuilder/sql.go:103-136 | the text for a matcher on a label reads as its condition in front of anything, or its type is refused |
| QueryBuilder.NameCondition | pkg/infrastructure/querybuilder/sql.go:141-158 | the same for a matcher on the metric name |
| QueryBuilder.BuildLabelConditions | pkg/infrastructure/querybuilder/sql.go:95-162 | one text per matcher, in order, each reading as what its matcher stands for; or the error of the first type without a name |
| QueryBuilder.BuildLabelsPredicate | pkg/infrastructure/querybuilder/sql.go:78-89 | the whole predicate parses back to exactly the condition list in order, whatever names and values hold |
| QueryBuilder.BuildSQLQuery | pkg/infrastructure/querybuilder/sql.go:59-72 | the whole query reads, clause by clause, as the four columns, the two tables, the join on equal ids, the conditions of the matchers and the two clamped bounds, and the order by time; or the error of the first type without a name |
| Storage.SelectMeansJoin | pkg/infrastructure/querybuilder/sql.go:28-34 | what these clauses choose from the cross product of the tables, scanned by position, is as a bag the join on equal ids of the rows that satisfy the conditions, by ascending time |
| Matching.ConditionMeans | pkg/infrastructure/querybuilder/sql.go:95-193 | a condition is true exactly on the rows whose label value, missing as empty, PromQL accepts; and unknown only for a containment on a NULL column |
| Matching.PredicateMeans | pkg/infrastructure/querybuilder/sql.go:74-89 | the conjunction in three-valued logic is true exactly when every matcher accepts |
| Matching.TwoEqualitiesSelectNothing | pkg/infrastructure/querybuilder/sql.go:174-178 | two equalities on one label with different values select no row |
| LabelSets.LabelsBelowIsTotalOrder | pkg/presentation/storeapi/series.go:113-115 | the comparison of label sets is a total order |
| LabelSets.LabelsBelowExactly | pkg/presentation/storeapi/series.go:113-115 | one label set is below another exactly when at the first pair that differs its name comes first byte by byte, or its value under the same name, or it is a proper prefix |
| LabelSets.FromMap | pkg/presentation/storeapi/series.go:131 | the pairs of the map, by strictly ascending name |
| LabelSets.SpellingUnique | pkg/presentation/storeapi/series.go:131 | label sets are equal exactly for equal maps |
| SeriesBuilder.PromLabels | pkg/presentation/storeapi/series.go:123-132 | stored labels, overridden by external ones, and the metric name over both, as a sorted label set |
| SeriesBuilder.MergedAlike | pkg/presentation/storeapi/series.go:123-132 | two series merge into one label set exactly when they have one name and differ in overridden labels only |
| SeriesBuilder.ApartExactly | pkg/presentation/storeapi/series.go:120-132 | different series stay different for all data under the given stored names exactly when none of those is overridden |
| SeriesBuilder.Gather | pkg/presentation/storeapi/series.go:86-101 | after the row loop each group holds one series: its merged labels and its samples in row order |
| SeriesBuilder.Collect | pkg/presentation/storeapi/series.go:103-111 | one accumulator per series, samples sorted by time |
| SeriesBuilder.GroupRowsIntoSeries | pkg/presentation/storeapi/series.go:82-118 | the distinct series of the rows, each once, with merged labels and a time-sorted permutation of its samples, in label order |
| SeriesBuilder.GroupsLoseNothing | pkg/presentation/storeapi/series.go:82-118 | as bags, the samples of the accumulators under their labels are the rows under theirs |
| SeriesBuilder.StrictWhenApart | pkg/presentation/storeapi/series.go:113-115 | the list is strictly ascending when no stored label name is overridden |
| Chunks.EncodeXORChunks | pkg/presentation/storeapi/series.go:134-162 | exactly as many chunks as needed, chunk k holding samples 120k up to 120k+120, with the times of its first and last |
| Chunks.TilesAreWhole | pkg/presentation/storeapi/series.go:134-162 | end to end the chunks are the samples; 1 to 120 each, all but the last 120 |
| Chunks.TileBounds | pkg/presentation/storeapi/series.go:154-158 | for sorted samples a chunk's bounds hold for all of it and chunks follow one another |
| Chunks.BuildSeries | pkg/presentation/storeapi/series.go:37-58 | the accumulators of the rows, in order, each cut into its chunks |
| Chunks.BuiltCarriesRows | pkg/presentation/storeapi/series.go:37-58 | the series carry exactly the samples of the rows under merged labels, and are in order throughout |
| Chunks.BuiltStrictly | pkg/presentation/storeapi/series.go:37-58 | no two series have one label set when no stored label name is overridden |
| Pushdown.PromMatchers | pkg/presentation/storeapi/query.go:87-120 | invalid exactly when the first matcher that does not go through has a type without a name, or is on an external label and its pattern does not compile; no match exactly when that matcher is not satisfied by the external value; otherwise the matchers on stored labels are left, in order |
| Pushdown.FirstDecides | pkg/presentation/storeapi/query.go:93-117 | nothing after the first matcher that does not go through matters |
| Pushdown.PassedExactly | pkg/presentation/storeapi/query.go:84-131 | matchers whose types have names and whose patterns compile are never refused, and go through exactly when the external values satisfy theirs |
| Pushdown.PushdownKeepsMeaning | pkg/presentation/storeapi/query.go:62-82 | settling external matchers and asking the rest of the stored series is asking all of the merged series |
| Pushdown.FaithfulExactly | pkg/presentation/storeapi/query.go:94-104 | that holds for all requests and series exactly when no external label is named `__name__` |
| Storage.LabelNames | pkg/presentation/database/postgresql.go:275-299 | exactly the names some fitting series carries non-empty, and whether any series fits at all |
| Storage.LabelValues | pkg/presentation/database/postgresql.go:325-348 | exactly the non-empty values fitting series carry, ascending, the metric name from its own column |
| StoreApi.QuerySelects | pkg/infrastructure/querybuilder/sql.go:59-72 | the query's conditions are all true of a joined row exactly when it is in the clamped window and PromQL accepts its stored series |
| StoreApi.SelectedIsExpected | pkg/presentation/storeapi/query.go:62-82 | what the code selects, clamped and with external matchers settled first, is as a bag exactly the stored samples of the unclamped window whose merged series satisfies every matcher, for `__name__` not external and stored times strictly between the clamp bounds |
| StoreApi.RowsAreAsked | pkg/presentation/storeapi/server.go:111-131 | the rows of the query, merged, are as a bag the samples selected |
| StoreApi.SendAll | pkg/presentation/storeapi/server.go:136-145 | every series is sent in order, its label set and its chunks, or no chunk when asked, up to the send that fails, if one does |
| StoreApi.QuerySeries | pkg/presentation/storeapi/server.go:111-134 | when the matchers that reach the query are of the fragment, the series are exactly the samples selected, in order; an error only if the database failed on this very query |
| StoreApi.Series | pkg/presentation/storeapi/server.go:101-148 | whatever the external labels and times: an invalid request exactly as PromMatchers says; an internal error only if the database failed on this query; otherwise, when the patterns that reach the query are of the fragment, what is sent is exactly the samples selected, each once, under merged labels, in series, chunk and time order; or, when chunks are not wanted, the label sets of just these series without a chunk; or a proper front of either, if the stream broke |
| LabelMetadata.LabelsPredicate | pkg/presentation/storeapi/server.go:256-273 | an error or no match exactly as PromMatchers says, or a predicate that parses back to the conditions of the stored matchers |
| LabelMetadata.LabelNames | pkg/presentation/storeapi/server.go:153-204 | strictly ascending byte by byte, exactly the metric name, the external names and the non-empty label names of the fitting series, and nothing when none fits, for patterns of the fragment on stored labels; an invalid request as for Series |
| LabelMetadata.LabelValues | pkg/presentation/storeapi/server.go:209-251 | strictly ascending, exactly the external value when something fits, or the non-empty values of the label on fitting series, for patterns of the fragment on stored labels; an invalid request as for Series |
| LabelMetadata.ExposedExactly | pkg/presentation/storeapi/server.go:150-251 | the values merged series expose for a label are the external value if something fits, or else the stored values of the fitting series |
| LabelMetadata.NamesExactly | pkg/presentation/storeapi/server.go:178-196 | the names reported are those exposed exactly when nothing fits, or some fitting series has a metric name and no external value is empty |
| LabelMetadata.ValuesExactly | pkg/presentation/storeapi/server.go:230-243 | the values reported are those exposed, but exactly for an external label with an empty value on a store where something fits |
| LabelMetadata.ValuesOfName | pkg/presentation/storeapi/server.go:209-251 | LabelValues has values for the metric name exactly when some fitting series has one, and for any other label exactly when LabelNames reports it |
| LabelMetadata.NamesHaveValues | pkg/presentation/storeapi/server.go:150-251 | that a name is reported exactly when LabelValues has values for it holds exactly unless the name is `__name__` and something fits, all of it with an empty metric name |
| LabelMetadata.SentIsReported | pkg/presentation/storeapi/server.go:101-251 | every label that Series sends with a non-empty value, LabelNames reports and LabelValues reports with that value |
| LabelMetadata.ExposedIsSent | pkg/presentation/storeapi/server.go:101-251 | every label of a fitting series is in what Series sends, with its merged value, once that series has a sample in the window |
| RemoteRead.LabelPairs | pkg/usecase/read_prometheus_samples.go:86-100 | the metric name, then the stored labels by ascending name |
| RemoteRead.ReadRow | pkg/usecase/read_prometheus_samples.go:80-117 | a row of a known key is appended to its series; of a new key it creates the series, and is not in it |
| RemoteRead.ReadRows | pkg/usecase/read_prometheus_samples.go:79-118 | the map goes from what the rows before make of it to what all of them do, and no two keys share a series |
| RemoteRead.Execute | pkg/usecase/read_prometheus_samples.go:54-138 | one time series per series in the answers of all queries, with its samples in row order but the first; as meant, all of them |
| RemoteRead.LosesOnePerSeries | pkg/usecase/read_prometheus_samples.go:84-117 | the answer lacks exactly the first sample of every series, so it is as meant exactly when the queries brought no rows |
| RemoteRead.AsMeantExactly | pkg/usecase/read_prometheus_samples.go:54-138 | over the tables: the answer is as meant exactly when no query selects any stored row |
| RemoteRead.SameMillisecond | pkg/usecase/read_prometheus_samples.go:115 | the two read paths put a time at one millisecond exactly when its nanoseconds fit an int64 and it is not before 1970 with a fraction |
| RemoteRead.MeantAgreesWithStoreApi | pkg/usecase/read_prometheus_samples.go:60-133 | as meant, remote read gives every series the samples the StoreAPI grouping gives it |
| WriteRecords.RowsArePushes | pkg/infrastructure/metricwriter/postgresql.go:265-336 | over every run the rows appended are, as a bag, samples that were pushed, none more often, each with its stored time and its value; what the table gains is some of these rows |
| WriteRecords.EverySampleAccountedFor | pkg/infrastructure/metricwriter/postgresql.go:258-326 | over every run, as bags: the samples pushed are those appended, those left out as the first of a series whose text is refused, those in flight when the process died, and those in flight now |
| WriteRecords.RecordedInReach | pkg/infrastructure/metricwriter/postgresql.go:318-336 | whatever was pushed, the stored time is strictly between the clamp bounds of a query |
| ReadBack.PushedTime | pkg/presentation/storeapi/series.go:98 | the time served is the time pushed exactly within plus or minus 9223372036854 ms, and there a window selects by the pushed time |
| ReadBack.ServedAsPushed | pkg/presentation/storeapi/server.go:101-148 | in a safe setting, after any run from a truthful database, what Series selects is exactly the stored samples that as pushed fall into the window and satisfy the matchers, each once, under their metric's labels, with their value and the time their timestamp is stored as |
| ReadBack.SentAsPushed | pkg/presentation/storeapi/server.go:101-148 | so any list of series that carries what is selected, as the one Series sends with chunks, carries exactly these samples |

## Left out

- HTTP and gRPC handlers, snappy and protobuf, logging, configuration, the container and `main`: plumbing.
- The XOR bit encoding: a chunk stands for the samples its encoding decodes to, and creating an appender on a new
  chunk does not fail.
- The calendar rendering of RFC 3339 (section 5.6): the project takes a writer and a reader of instants that agree
  between the two clamp bounds as a parameter.
- Invalid UTF-8 and NUL characters in names and values, and which characters above ASCII Go counts as printable: an
  arbitrary constant stands for that table.
- Label names with quotes and metric names with braces, which the UTF-8 names of Prometheus 3 allow: two lemmas show
  that texts collide then, and the runs of the write path take names of the legacy syntax.
- Bounded repetitions, lazy quantifiers, back references, escapes such as `\d` and character-class names: the
  engines differ on them or add nothing. On an external label such a pattern is read by the arbitrary RE2; what
  PostgreSQL selects by one on a stored label is not described.
- A commit that stores other than all rows: `MetricWriter` has it; in the transition system a failing copy stores none.
- Several savers or replicas, and torn reads of the unlocked slices: declared unsupported; appends are atomic steps.
- ErrorChan delivery: a goroutine is taken never to block on it.
- `Info`, `MinSampleTimestamp`, `CheckHealth`, `Exec`, `Close`: one query or one call each, with no property that
  spans them.
- The rest of the SQL texts: the metadata queries are modelled by what they answer around a predicate, which is parsed
  from its text; the label column is NULL or an object of strings and nulls.
- StoreApi.Series: says what is sent for patterns of the fragment on stored labels, the others being left open.
- LabelMetadata.LabelNames: as StoreApi.Series, for the names it reports.
- LabelMetadata.LabelValues: as StoreApi.Series, for the values it reports.
- MetricWriter.Writer.ParseBatch: is one parser running alone; several are the subject of WritePath, on values.
- SeriesBuilder.Gather: keeps the groups as values in a map where the code keeps pointers; nothing else points to them.
- RemoteRead.Execute: does not say which of several failing queries is reported, only that the one reported fails.
