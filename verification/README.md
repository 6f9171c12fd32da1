# Cardinality-controlled metrics stores: a verified model

resource-state-metrics watches Kubernetes objects, renders each of them to
OpenMetrics text with one cached string per object and metric family, counts the
samples, and stops rendering a family (cuts it off) once it, or its store, is over
a limit. This project models that machinery in Dafny and proves what it keeps:

* **Cardinality control.** `Tracker`, `Store` and `Family` are the tracker, the
  store and the family object, updated in place as the program does. `StoreMachine`
  is the state machine their methods implement: every method is proved to be one
  step of it (or one run, for `Replace`), and `SoftCutoff`, `Reprocess`, `History`
  and `Tightness` prove results over all its runs. `StoreFacts` states them for the
  store with its real rendering, and `Witness` has a store of that kind, with an
  object of every size, on which the bounds are attained.
* **Resolving.** `Flatten` is the mutual recursion that turns CEL results into
  `name#index` entries, together with the exact set of outputs it can leave;
  `Leaves` relates them to the leaves of the value, `Resolvers` says when a result
  depends on the object alone.
* **Sample expansion.** `Collect` (entries to lists), `Slices`, `LabelSorting`,
  `Labels`, `Expansion`, `Samples` and `Family` follow the code down to slices with
  shared backing arrays, index arrays and maps whose heads are popped. Map iteration
  order, in the resolver and after it, and the order an unstable sort gives to ties
  are arbitrary; a `Draw` records what they decided for one metric, and `Outcome`
  relates a text and a count to some draw. `Determinism`, `MetricValues` and
  `Counts` say exactly when labels, values and counts come out the same at the next
  rendering, `Generations` what inheriting labels again and again does to them;
  `Examples` has inputs on which they do not.
* **Exposition.** `Exposition` prints label blocks and values, and holds a reader
  for the text format, written from the escaping rules and the grammar of
  OpenMetrics 1.0.0 (sections "Escaping" and "ABNF"); `LineReading` says what it can
  give for any text. `LabelKeys` and `AllowedNames` say which label names are printed.
  `Writer`, `WriterFacts` and `ScrapeReading` cover a scrape.
* **Totals and status.** `Configurer` builds the stores of a monitor, `Conservation`
  and `Events` add up and report their figures, `Manager` keeps the totals of all
  monitors, `Status` the condition list.

Counters are mathematical integers wrapped to int64 after every operation. The
float64 comparison of a count with a limit is modelled exactly, in `Float`: numbers
are scaled by 2^1074 to integers and rounded to nearest, ties to even (section 4.3.1
of IEEE 754-2019). The reach of a limit is the largest integer that converts to the
same float64; below 2^53 it is the limit itself (`FloatReach`). Warning ratios are
reals. Strings are sequences of characters compared character by character.

`Env` (in `Resources`) stands for what is outside: evaluating a CEL expression to a
value, looking up a dotted path, `strconv.ParseFloat`, `%f`, and the label-name
sanitizer. An evaluation may depend on its instant, that is on the clock and on
timeouts; an error or a timeout is a value the resolver does not support. Of these
functions `Env.Valid` asks only that a resolved map has fewer than 2^63 entries,
that "" is no number, that `%f` prints no line feed, and that the sanitizer leaves
neither line feed nor NUL and does not make a non-empty name empty. Label names have
at least one character, as the API requires
(`pkg/apis/resourcestatemetrics/v1alpha1/types.go:101-107`).

Where code and comments disagree, the model follows the code:

* `internal/cardinality.go:49-51` suggests that a cut off family recovers. Only a
  family with a limit of its own does; see `Reprocess.UnlimitedFamilyCutoff` and the
  run in `Witness.CutoffStays`.
* `internal/family.go:150-154` and `internal/store.go:90-94` expect counts to be
  idempotent across reprocessing. For an object whose entry names do not depend on
  time they are exactly if, for each metric, either no value its expression can come
  to fills the rows of the first rendering with numbers, or all do and no label of
  the store holds a list (`Counts.MetricRepeatsIff`, `StoreFacts.RepeatableIff`). A
  value that changes with time but is always a number does no harm
  (`Counts.NumbersSteady`). Two lists of one name in a map do, since one may hold
  numbers and the other not (`Examples.CountVaries`). The store's labels, appended
  again for every object (`internal/store.go:225`), make the count of a single-valued
  metric grow if one of them holds a list, and that of a list-valued metric drop to 0
  (`Generations.CountGrows`, `Generations.CountDrops`, `Examples.CountGrowsForGood`).
* A scrape is meant to be read by an OpenMetrics parser. It is, exactly if all names
  in it are allowed and every line feed in a help text is followed by a number sign
  (`ScrapeReading.WholeScrape`): the sanitizer lets a leading digit through
  (`Examples.LeadingDigit`), and help texts are not escaped. `AllowedNames` says the
  former of the configuration.
* `Replace` is documented as a relist, but only adds: afterwards the store holds what
  is listed exactly if it held nothing else before (`Store.RelistIff`).
* `internal/config.go:166` reports families "used in multiple stores"; the list it
  looks at also holds one entry per repetition inside a single store. The report is
  right exactly unless one store alone declares the family, more than once
  (`Configurer.ReportedIff`, `Configurer.ReportedAlone`).
* `internal/events.go:314-318` gives a total and a map of per-store figures; they agree
  exactly if the figures overwritten under shared keys add up to 0
  (`Conservation.SharedKey`), so always when the keys are distinct.

`dafny verify dfyconfig.toml` verifies the whole project.

## Model

| member | source | states |
|---|---|---|
| Store.StoreType.constructor | internal/store.go:56-75 | a new store is the initial state of the machine: nothing cached, counted or cut off |
| Store.StoreType.Add | internal/store.go:78-103 | an object that converts makes exactly one machine step: its row holds, per family, a legal rendering or "" where the flag was set before the call; the counts of that same rendering go to the tracker either way; flags follow the check made afterwards. One that does not convert changes nothing and fails |
| Store.StoreType.Update | internal/store.go:107-111 | the same step as Add |
| Store.StoreType.Delete | internal/store.go:114-133 | row, live object and recorded counts of the uid go, and the thresholds are checked; an argument without metadata changes nothing and fails |
| Store.StoreType.Replace | internal/store.go:136-146 | is a run of Add steps in list order, passing over what cannot be converted; afterwards exactly the objects from before and those listed are cached, and the store is synced |
| Store.RelistIff | internal/store.go:136-146 | so it holds just what is listed if and only if it held nothing else before |
| Store.StoreType.GenerateMetricsForObject | internal/store.go:200-218 | one text and one count per family, from one rendering each; blank text but full count where cut off; every family has inherited once more |
| Store.StoreType.CheckAndApplyThresholds | internal/store.go:230-243 | afterwards FamilyType.cutoff of every family is the tracker's verdict |
| StoreMachine.RunKeepsInv | internal/store.go:78-146 | in every state of every run: tracked, cached and live uids are the same set, rows have one slot per family, flags mirror the tracker, checking again would change nothing, and every recorded count and cached text stems from one rendering of the live object |
| SoftCutoff.FamilyBound | internal/store.go:90-94 | over every run the sample lines cached for a family with limit T never exceed the reach of T (T itself below 2^53) plus the largest count one Add produced for it |
| Witness.SoftCutoffTight | internal/store.go:90-94 | both bounds are tight on a store as the program builds it, one metric over a list the object holds: for every limit, on the family or on the store, and every largest count above 0, a run shows exactly the reach of the limit plus that count |
| Tightness.BoundsAttained | internal/store.go:90-94 | the same for every store with one family that has, for every n, an object rendered as n lines |
| SoftCutoff.StoreBound | internal/cardinality.go:206-229 | over every run all sample lines of a store with limit S never exceed the reach of S plus the largest one-object total |
| StoreFacts.SoftCutoffBounds | internal/store.go:78-146 | both bounds for the store with its real rendering, for every limit and totals below 2^63 |
| Reprocess.LimitedFamilyCutoff | internal/cardinality.go:165-204 | after any run a known family with its own limit is cut off exactly when its count exceeds that limit now, or the store total exceeds the store's |
| Reprocess.UnlimitedFamilyCutoff | internal/cardinality.go:172-175 | after any run a family without its own limit is cut off exactly when some state of the run so far had the store over its limit with the family known |
| Witness.CutoffStays | internal/cardinality.go:172-175 | on such a store and for every store limit: one object beyond it, added and deleted, leaves the store empty, within its limit, and the family cut off, through any number of further checks |
| Reprocess.ReprocessFixpoint | internal/store.go:90-94 | from any reachable state, re-adding live objects unchanged, in any order and number, leaves counts, flags and violations as they were, and each re-added row blank or fully rendered family by family |
| StoreFacts.RepeatableIff | internal/family.go:150-154 | for an object with fixed entry names: any two renderings, at any two generations, count the same in every family if and only if each metric's count is steady |
| StoreFacts.ReprocessingSettles | internal/family.go:150-154 | the same as the fixpoint for the store with its real rendering, after any run, once every live object was re-added, provided the live objects' counts are steady; values may change with time |
| Counts.MetricRepeatsIff | internal/store.go:220-226 | for a metric with fixed entry names: all renderings, at all generations, count the same if and only if none of the values its expression can come to fills the rows of the first rendering with numbers, or all do and no label of the store holds a list for the object |
| Counts.FamilyRepeatsIff | internal/family.go:155-224 | the same for a family: all renderings count the same, whatever sorts, map orders, instants and label values came to, if and only if each of its metrics does |
| Counts.NumbersSteady | pkg/resolver/cel.go:305-318 | a single value that may change with time, as one computed from the clock, but is always a number keeps the count, if no label of the store holds a list |
| Generations.CountGrows | internal/store.go:220-226 | with such a label the g-th rendering of a single-valued metric counts at least g samples |
| Generations.CountDrops | internal/family.go:522-584 | and a metric with a list of values counts none as soon as g exceeds the number of values, because the row past the last one has "" for a value |
| Generations.GenerationsAlike | internal/store.go:220-226 | without one, any two generations expand to lists of the same names and lengths |
| Tracker.CardinalityTracker.Update | internal/cardinality.go:103-119 | replaces the object's counts and keeps the running totals equal, as int64, to those recomputed from the counts last written; with natural counts, for every set of entries the two loops may have handled so far, every family's and the store's total lies between 0 and the larger of its old and new value |
| Tracker.CardinalityTracker.Delete | internal/cardinality.go:122-134 | the same for removal; an unknown uid changes nothing |
| Tracker.CardinalityTracker.Shift | internal/cardinality.go:103-134 | the loops themselves: every entry is taken from, or added to, its family's total and the store's, in any order |
| Tracker.NeverWraps | internal/cardinality.go:103-134 | so if the totals fit an int64 before and after, no counter wraps at any point of the loops |
| Tracker.CardinalityTracker.CheckThresholds | internal/cardinality.go:165-232 | flags become exactly those the recomputed totals call for, families without a limit keep theirs unless the store is over, and the violations are one per family or store at or over its warning level |
| Tracker.CheckIdempotent | internal/cardinality.go:165-232 | a second check changes no flag and reports the same violations |
| Tracker.CardinalityTracker.GetCutoffFamilies | internal/cardinality.go:251-264 | lists every cut off family once |
| Tracker.CardinalityTracker.Reset | internal/cardinality.go:267-275 | forgets counts, families and flags, keeps the limits |
| History.UnlimitedFamilyLatch | internal/cardinality.go:206-229 | over any sequence of tracker calls a family without its own limit is cut off exactly when some check since the last Reset found the store over its limit with the family known |
| History.LimitedFamilyFollowsLastCheck | internal/cardinality.go:177-204 | a family with its own limit is cut off exactly when the most recent check since Reset found it, or the store, over the limit |
| Float.CutoffExact | internal/cardinality.go:177-183 | for a limit below 2^53 and any count, the rounded quotient of the rounded operands exceeds 1.0 exactly when count > limit |
| Float.CutoffIffConvertedExceeds | internal/cardinality.go:177-183 | for every limit the verdict is the comparison of the converted numbers, so an excess is missed exactly when both convert to the same float64 |
| FloatReach.CutoffBeyondReach | internal/cardinality.go:177-183 | for every limit the check cuts off exactly the counts beyond the reach of the limit |
| FloatReach.ReachExact | internal/cardinality.go:177-183 | below 2^53 the reach of a limit is the limit |
| Float.CutoffInexact | internal/cardinality.go:177-183 | 2^54 + 1 against the limit 2^54 is missed |
| Float.SeverityMonotone | internal/cardinality.go:179-203 | severity never falls as the count grows, for any warning ratio |
| Float.RoundNearest | internal/cardinality.go:177 | no float64 value is closer to a real than the one it is rounded to |
| Collect.CollectIndexedResolvedValues | internal/family.go:417-465 | staging only the indices below the number of entries still returns the maximal contiguous run from #0 of the unbounded index map, whatever the iteration order |
| Collect.Pigeonhole | internal/family.go:417-465 | a run from #0 is never longer than the map has entries |
| Collect.RunDetermined | internal/family.go:417-465 | the run's length is a function of the map, and the run itself is if no index repeats |
| Flatten.ResolveListInner | pkg/resolver/cel.go:418-431 | terminates on every finite value and writes the items in order |
| Flatten.ResolveMapInner | pkg/resolver/cel.go:433-446 | the same for maps, visited in any order |
| Flatten.ProcessResult | pkg/resolver/cel.go:340-416 | a scalar, null or unsupported result is one entry under the query, a list or map in a representation the resolver does not know gives none; other lists and maps are flattened, lists named after the field before the first call |
| Flatten.ResolvesTexts | pkg/resolver/cel.go:418-446 | what can come out, exactly: an entry for every name that some leaf writes and no other, holding a text of the last list item or of some map entry that writes it; and each such text does come out in some iteration order |
| Flatten.UniqueIffSettled | pkg/resolver/cel.go:433-446 | iteration order shows in the result if and only if some name can end up with two texts; it never shows in the names |
| Leaves.FlattenBijection | pkg/resolver/cel.go:418-446 | with pairwise distinct leaf names the output is one entry per leaf, under its name, and nothing else |
| Leaves.FlattenDeterministic | pkg/resolver/cel.go:433-446 | then any two iteration orders give the same map |
| Leaves.DistinctLeavesSettle | pkg/resolver/cel.go:340-446 | and no name of the query's result can end up with two texts |
| Leaves.ListRoundTrip | pkg/resolver/cel.go:418-431 | for any prefix, collecting a flattened list of scalars gives back the list in order; with nulls in it, the part before the first |
| Resolvers.Resolve | pkg/resolver/cel.go:101-145 | the result is one the resolver may give: flattened from the value at some instant, or the found field |
| Resolvers.ResultIffSteady | pkg/resolver/cel.go:101-145 | an expression gives the same result at every rendering if and only if every name in it can only ever hold one text |
| Resolvers.NamesIffFixed | pkg/resolver/cel.go:101-145 | and results with the same names if and only if these are the same at every instant |
| Resolvers.DistinctLeavesSteady | pkg/resolver/cel.go:418-446 | an expression whose value does not change with time and whose leaf names are pairwise distinct gives the same result at every rendering |
| LabelSorting.SortLabels | internal/family.go:385-411 | sorts the keys in place by some permutation and applies that same permutation to every parallel slice of equal length; the others keep their order |
| Labels.ResolveLabels | internal/family.go:326-382 | static keys come out sorted with every key-value pair of the resolved labels, with multiplicity; lists under one sanitized name are concatenated in label order, and a map or empty result leaves an empty list |
| Determinism.StaticKeysDetermined | internal/family.go:326-411 | with fixed names, the static keys are the same at every rendering, for every map order and unstable sort |
| Determinism.StaticLabelsDetermined | internal/family.go:326-411 | and if no key repeats, so are the values, if and only if every entry that becomes a static label can only ever hold one text |
| MetricValues.ValueIffSteady | internal/family.go:298-323 | the value of a metric, single or list, is the same at every rendering if and only if the single value, or each place in the list, can only ever hold one text |
| MetricValues.SomeDraw | internal/family.go:155-224 | every metric has a legal rendering, so none of these results is empty |
| Examples.CountVaries | pkg/resolver/cel.go:433-446 | a metric over a map with two lists of one name counts one sample in one iteration order and none in another |
| Examples.CountGrowsForGood | internal/store.go:220-226 | a store label holding one list entry: the g-th rendering counts g samples or more, for every g |
| Expansion.ExtractAndSortExpandedMetricValues | internal/family.go:476-519 | the value list leaves the expanded set and, when its length is that of the anchor label's list, values and equally long lists are permuted alike so that the anchor is sorted; otherwise nothing is reordered |
| Expansion.PositionalCorrespondence | internal/family.go:476-519 | label lists and values of one length n come out as exactly the n tuples (L1[i], ..., Lm[i], V[i]) as a multiset, ordered by the smallest label name, for any tie order |
| Samples.WriteExpandedSamples | internal/family.go:598-635 | popping list heads prints exactly max-length rows, row i with every list's element i or "" past its end, after the static labels; appending to the shared label slices never spoils a row |
| Samples.WriteMetricSamplesWithCount | internal/family.go:522-584 | writes one line per row and counts them if every row's value is valid, and reports failure otherwise |
| Family.FamilyType.BuildMetricString | internal/family.go:155-224 | text and count belong to one outcome of the family for the object; a metric that fails part-way adds neither; cutoff blanks the text only |
| Family.ResolveMetricValue | internal/family.go:298-323 | one value, a collected list under the sentinel, silence for an empty result, or an error |
| FamilyFacts.MetricIsTuples | internal/family.go:476-584 | in a rendered metric whose label lists and values all have length n: the n rows are those tuples, ordered by the smallest label name, if every value can be written, and otherwise the metric adds neither text nor count |
| FamilyFacts.CountFidelity | internal/family.go:155-224 | with a newline-free name the count is the number of newline-terminated lines of the uncut text |
| FamilyFacts.FamilyRoundTrip | internal/family.go:522-584 | reading a rendered family gives exactly its rows, one sample each and in order, automatic labels included, if and only if the metric's and the labels' names are ones the format allows |
| LabelKeys.RowKeysAre | internal/family.go:326-382 | every row of a metric carries exactly the names its labels give: the sanitized name of each, and one per entry of a map |
| AllowedNames.AllowedIff | internal/family.go:326-382 | with fixed entry names, every rendering of a family for an object has allowed names only, if and only if, for every metric that can count something, the family's name, the sanitized name of every label and the key of every map entry its expression can give are allowed |
| AllowedNames.FamilyAllowedReads | internal/family.go:468-470 | and that is enough for every metric whether or not names are fixed |
| Examples.LeadingDigit | internal/family.go:468-470 | a label named 1 is printed under that name, and a reader gets nothing from the text |
| Exposition.WriteMetricTo | internal/metric.go:27-36 | prints labels with the five automatic ones at the end, and the value; an invalid value fails |
| Exposition.LabelBlockRoundTrip | internal/metric.go:45-69 | a reader following the format's escaping recovers exactly the keys and values, for all label names and all value strings |
| Exposition.LabelBlockInjective | internal/metric.go:45-69 | so equal blocks have equal labels |
| Exposition.SampleRoundTrip | internal/metric.go:27-92 | the same for a whole sample line, with labels or without, and the reader stops where the line does |
| Writer.MetricsWriter.WriteStores | internal/writer.go:37-53 | the writer gets a complete scrape of every store in order; if a write fails, a beginning of one and nothing after the failure |
| Writer.WriteFromStore | internal/writer.go:55-81 | the same for one store: per header, its line, the texts of all objects in some order, and the trailing header |
| WriterFacts.EachOnce | internal/writer.go:55-81 | in every reachable state every cached text stands exactly once under its family's header, and rows have no other texts |
| WriterFacts.SectionsSplit | internal/writer.go:55-81 | all texts of a family lie between its header and the next section |
| WriterFacts.SectionLines | internal/writer.go:55-81 | for every object order a section has the lines of its headers plus those visible in the cache, the figure the soft-cutoff bounds speak of |
| LineReading.ReadSamplesFacts | internal/writer.go:55-81 | whatever the text, a reader gets from it one sample for each line that is no comment, with allowed names only, or nothing |
| WriterFacts.SectionParts | internal/writer.go:61-69 | after any run and for any order, what stands under a header has one line for each sample of every object, or none where cut off, and reads as exactly these samples, complete and unmixed, if and only if their names are allowed; as many as are visible |
| ScrapeReading.HeaderRead | internal/family.go:686-692 | a reader finds no sample in a family's header if and only if every line feed in the help text is followed by a number sign |
| ScrapeReading.WholeScrape | internal/writer.go:55-81 | reading everything a scrape of the store prints gives, family by family, the samples of every object and the _created sample of a counter, and nothing else, if and only if the names are allowed and every line feed in a help text is followed by a number sign; they are as many as are visible plus one per counter |
| ScrapeReading.NamesSuffice | internal/family.go:468-470 | the names are allowed if the families' are and, for every live object, those its labels can give |
| ScrapeReading.BuiltFrame | internal/builder.go:115-122 | the headers of a built store are those this speaks of |
| WriterFacts.ScrapeBounded | internal/store.go:90-94 | end to end: over any run a scraper that can read what stands under the header of a family with limit T gets as many samples as are visible, at most the reach of T plus the largest count one Add produced for it |
| Configurer.Deduplicate | internal/config.go:120-152 | keeps exactly the first entry of each key in order; occurrence counts are exact and add up to the input length; families are listed with the kept stores that declare them |
| Configurer.FirstsHaveKeys | internal/config.go:120-152 | kept entries have pairwise distinct keys, and no key is lost |
| Configurer.ReportedIff | internal/config.go:162-172 | a family is reported as used in multiple stores if and only if it is, unless one kept store alone declares it, more than once |
| Configurer.ReportedAlone | internal/config.go:162-172 | one store declaring a family twice gets that report |
| Configurer.KeyIdentifies | internal/config.go:92-94 | the key of a store is that of no store of another kind if and only if none of its parts holds a slash |
| Configurer.Build | internal/config.go:97-183 | one fresh store per distinct key, with its own tracker and families and with distinct identifiers; entries that cannot be expanded are passed over |
| Configurer.BuildStore | internal/builder.go:62-113 | headers, labels, limits (own or default, last positive one per family name) and identifier are those configured, and the store is in its initial state |
| Conservation.TotalIsPerStore | internal/events.go:314-318 | with distinct store identifiers the monitor's total is the sum of the per-store map, as int64 |
| Conservation.SharedKey | internal/events.go:316 | whatever the identifiers, this holds if and only if the figures overwritten under a shared one add up to 0, as int64 |
| Conservation.TotalIsPerFamily | internal/events.go:318-323 | the total is also the sum of the per-family map |
| Conservation.SumsExchange | internal/cardinality.go:103-119 | the store total is the sum of the family totals |
| Conservation.PerFamilyIs | internal/events.go:320-323 | each family's figure is its count summed over the stores that know it |
| Conservation.PerFamilyKeys | internal/events.go:320-323 | and the map lists exactly the families some store knows |
| Conservation.PerFamilyLimitIs | internal/events.go:325-331 | the limit shown is the largest positive one any store sets, and there is one exactly when some store sets one |
| Events.AggregateStoreCardinality | internal/events.go:301-346 | figures and cut off families are those before the aggregation's own check, every store makes one check step, all violations are collected |
| Events.Controller.UpdateCardinalityStatus | internal/events.go:360-394 | one round: aggregate, record the total, check monitor and global limit, write the status; a monitor without stores is left alone |
| Events.RoundConserves | internal/events.go:360-438 | after a round the manager's and the status' total is the sum of both maps; ThresholdsExceeded and CardinalityCutoff=True hold exactly when a family, store, monitor or global limit is exceeded |
| Events.RoundLeavesQuiescent | internal/events.go:335 | a round does not change a store that is between operations |
| Events.HasThresholdExceeded | internal/events.go:349-357 | some violation is a cutoff |
| Events.Controller.PersistCardinalityStatus | internal/events.go:411-438 | the stored status gets figures and conditions from the same violations, or, when the API server refuses, nothing |
| Events.Controller.EmitSuccess | internal/events.go:207-229 | writes Processed with the given status, or nothing |
| Events.Controller.EmitFailure | internal/events.go:231-253 | writes Failed=True, or nothing |
| Manager.GlobalCardinalityManager.UpdateResource | internal/cardinality_manager.go:49-61 | replaces the monitor's total and keeps the global total equal to the sum, as int64 |
| Manager.GlobalCardinalityManager.DeleteResource | internal/cardinality_manager.go:64-74 | the same for removal, flag included |
| Manager.GlobalCardinalityManager.CheckThresholds | internal/cardinality_manager.go:116-185 | flags and violations for the monitor's effective limit, then the global limit, which cuts off every tracked monitor |
| Manager.CutByLastRuling | internal/cardinality_manager.go:116-185 | after any history a monitor is cut off exactly when the last operation that ruled on it cut it off |
| Manager.TracksLatest | internal/cardinality_manager.go:49-74 | a monitor is tracked with the last total recorded for it, unless it was deleted since |
| Manager.GlobalTotalIs | internal/cardinality_manager.go:49-74 | so the global total is the sum of the latest totals of the monitors not deleted since, as int64 |
| Status.ResourceMetricsMonitorStatus.Set | pkg/apis/resourcestatemetrics/v1alpha1/types.go:318-358 | the condition replaces the first of its type in place, or is appended; a caller's reason wins over the default one |
| Status.ResourceMetricsMonitorStatus.SetCardinalityConditions | internal/events.go:473-520 | Cutoff and Warning from the violations, Warning also under cutoff, the warning reason on a Cutoff=False |
| Status.StatusCoherent | internal/events.go:411-520 | over any writes from an empty status: types are unique, CardinalityCutoff=True implies CardinalityWarning=True, and where cardinality is present ThresholdsExceeded equals CardinalityCutoff=True |
| Status.PlacesKept | pkg/apis/resourcestatemetrics/v1alpha1/types.go:346-357 | a condition keeps its place for good, and its content until a write about its type |

## Left out

- The Starlark path (`internal/family.go:227-283`), where a failed sample leaves a partial line: `BuildMetricString` is the path without it.
- Kubernetes clients, informers, the work queue, HTTP, logging, generated code.
- CEL evaluation and its cost limits, number parsing and printing, label-name sanitizing, wildcard expansion: parameters. Where a number is printed, only that it holds no line feed is used.
- Finer interleaving: each store operation and each store's part in an aggregation is one atomic step, although `internal/events.go:335` checks without the store's mutex.
- A store without a tracker (`cardinalityTracker == nil`): `buildStore` always sets one.
- Deleting a monitor end to end: the event handler rebuilds the object without uid; only `DeleteResource` is modelled.
- `Configuration.CardinalityLimit` and acting on a monitor's cutoff flag: the caller passes 0 and nothing reads the flag. `SetFamilyCutoff` and `SetResourceCutoff` have no caller.
- Grouping equally named families of different stores in a scrape: the program only groups within a store.
- Events.AggregateStoreCardinality: the store's and the monitor's names copied into violations, which nothing modelled here reads.
- Events.Controller.UpdateCardinalityStatus: the Prometheus gauges and the counter of violations it also sets, and `updateMetadata`.
- Family.FamilyType.BuildMetricString: the Starlark branch of these lines, as above.
- StoreFacts.RepeatableIff: speaks of objects whose entry names do not depend on time; `Resolvers.NamesIffFixed` says exactly which expressions give such names.
- ScrapeReading.WholeScrape: family names hold no line feed, as the API requires (`pkg/apis/resourcestatemetrics/v1alpha1/types.go:169`).
- StoreFacts.SoftCutoffBounds: asks for distinct family names in a store, since counts are kept by name, and for totals below 2^63.
- Events.RoundConserves: figures of distinct store identifiers, which `Configurer.Build` guarantees; without them `Conservation.SharedKey` applies.
