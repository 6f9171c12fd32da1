/** Rendering one metric family for one object (internal/family.go,
    buildMetricString). */
module Family {
  import opened Basics
  import opened Resources
  import opened Resolvers
  import opened Collect
  import opened Exposition
  import opened Slices
  import opened Labels
  import opened Expansion
  import opened Samples

  datatype Config = Config(name: string, metrics: seq<Metric>, labels: seq<Label>, resolver: ResolverKind)

  function HasSuffix(s: string, suffix: string): bool {
    |s| >= |suffix| && s[|s| - |suffix|..] == suffix
  }

  function KindOf(name: string): MetricKind {
    if HasSuffix(name, "_total") then Counter else Gauge
  }

  // ---- headers ---------------------------------------------------------------------------------

  function KindText(kind: MetricKind): string {
    if kind == Counter then "counter" else "gauge"
  }

  function TrimSuffix(s: string, suffix: string): string {
    if HasSuffix(s, suffix) then s[..|s| - |suffix|] else s
  }

  function FamilyHeader(name: string, help: string): string {
    "# HELP " + PREFIX + name + " " + help + "\n" + "# TYPE " + PREFIX + name + " " + KindText(KindOf(name))
  }

  function CreatedName(name: string): string {
    PREFIX + TrimSuffix(name, "_total") + "_created"
  }

  function CreatedHelp(name: string): string {
    "# HELP " + CreatedName(name) + " Time at which " + (PREFIX + name) + " was created."
  }

  function CreatedType(name: string): string {
    "# TYPE " + CreatedName(name) + " " + KindText(Counter)
  }

  function CreatedLine(name: string, createdAt: string): string {
    CreatedName(name) + " " + createdAt
  }

  /** Counters have a trailing _created sample without labels. */
  function PeripheralHeader(name: string, createdAt: string): string {
    if KindOf(name) != Counter then ""
    else CreatedHelp(name) + "\n" + CreatedType(name) + "\n" + CreatedLine(name, createdAt)
  }

  // ---- resolvers -------------------------------------------------------------------------------

  /** The resolver of a metric: its own, else the family's; Starlark and unknown
      kinds are errors here. */
  function ResolverOf(f: Config, m: Metric): Option<ResolverKind> {
    var rk := if m.resolver == Inherit then f.resolver else m.resolver;
    if rk == Unstructured || rk == Cel then Some(rk) else None
  }

  function LabelsOf(f: Config, m: Metric): seq<Label> {
    m.labels + f.labels
  }

  // ---- outcomes --------------------------------------------------------------------------------

  /** Everything about the rendering of one metric that time, map iteration order
      and unstable sorting leave open: what each label and the value resolved to,
      the sorted static labels, the lists collected from the resolutions, and the
      co-sorting permutation. */
  datatype Draw = Draw(
    rs: seq<Resolution>, r: Resolution,
    keys: seq<string>, values: seq<string>,
    runs: seq<seq<string>>, run: seq<string>,
    order: seq<nat>)

  const NO_DRAW: Draw := Draw([], map[], [], [], [], [], [])

  function Lists(env: Env, f: Config, m: Metric, d: Draw): map<string, seq<string>>
    requires |d.runs| == |d.rs| == |LabelsOf(f, m)|
  {
    Expanded(env, LabelsOf(f, m), d.rs, d.runs)
  }

  ghost predicate Legal(env: Env, rk: ResolverKind, f: Config, m: Metric, o: Object, d: Draw) {
    && AllResolve(env, rk, LabelsOf(f, m), o, d.rs)
    && env.MayResolve(rk, m.value, o.content, d.r)
    && StaticLabels(env, LabelsOf(f, m), d.rs, d.keys, d.values)
    && LabelRuns(LabelsOf(f, m), d.rs, d.runs)
    && ValueRun(m, d.r, d.run)
    && AnchorOrder(Lists(env, f, m, d), d.run, d.order)
  }

  /** The list the value expression gave, if it gave no single value. */
  ghost predicate ValueRun(m: Metric, r: Resolution, run: seq<string>) {
    if m.value in r then run == [] else IsRun(r, run)
  }

  /** There is something to write: one value, or a non-empty list of them. */
  predicate HasValue(m: Metric, d: Draw) {
    m.value in d.r || d.run != []
  }

  function ContextOf(env: Env, f: Config, m: Metric, o: Object, d: Draw): Context {
    Context(env, o, f.name, KindOf(f.name), if m.value in d.r then d.r[m.value] else "")
  }

  predicate Formed(f: Config, m: Metric, d: Draw) {
    |d.runs| == |d.rs| == |LabelsOf(f, m)| && Below(d.order, |d.order|)
  }

  ghost function RowsOf(env: Env, f: Config, m: Metric, d: Draw): seq<Row>
    requires Formed(f, m, d)
  {
    var lists := Lists(env, f, m, d);
    MetricRows(d.keys, d.values, CoSortedLists(lists, d.run, d.order), CoSortedValues(lists, d.run, d.order))
  }

  ghost function XsOf(env: Env, f: Config, m: Metric, d: Draw): seq<string>
    requires Formed(f, m, d)
  {
    CoSortedValues(Lists(env, f, m, d), d.run, d.order)
  }

  /** The metric is written: it has a value and every row's value parses. */
  ghost predicate Written(env: Env, f: Config, m: Metric, o: Object, d: Draw) {
    && ResolverOf(f, m).Some?
    && var rk := ResolverOf(f, m).value;
       && Legal(env, rk, f, m, o, d) && HasValue(m, d)
       && AllWritable(ContextOf(env, f, m, o, d), XsOf(env, f, m, d), |RowsOf(env, f, m, d)|)
  }

  lemma RowsWellFormed(env: Env, rk: ResolverKind, f: Config, m: Metric, o: Object, d: Draw)
    requires Legal(env, rk, f, m, o, d)
    ensures Formed(f, m, d) && WellFormed(RowsOf(env, f, m, d))
  {
  }

  /** The text of one metric: all its lines, or nothing. */
  ghost function MetricText(env: Env, f: Config, m: Metric, o: Object, d: Draw): string {
    if Written(env, f, m, o, d) then
      RowsWellFormed(env, ResolverOf(f, m).value, f, m, o, d);
      RowsText(ContextOf(env, f, m, o, d), RowsOf(env, f, m, d), XsOf(env, f, m, d))
    else ""
  }

  ghost function MetricCount(env: Env, f: Config, m: Metric, o: Object, d: Draw): nat {
    if Written(env, f, m, o, d) then |RowsOf(env, f, m, d)| else 0
  }

  /** The first n metrics of the family. */
  ghost function FamilyText(env: Env, f: Config, o: Object, draws: seq<Draw>, n: nat): string
    requires n <= |draws| == |f.metrics|
  {
    if n == 0 then "" else FamilyText(env, f, o, draws, n - 1) + MetricText(env, f, f.metrics[n - 1], o, draws[n - 1])
  }

  ghost function FamilyCount(env: Env, f: Config, o: Object, draws: seq<Draw>, n: nat): nat
    requires n <= |draws| == |f.metrics|
  {
    if n == 0 then 0 else FamilyCount(env, f, o, draws, n - 1) + MetricCount(env, f, f.metrics[n - 1], o, draws[n - 1])
  }

  ghost predicate LegalDraws(env: Env, f: Config, o: Object, draws: seq<Draw>, n: nat) {
    && n <= |draws| == |f.metrics|
    && forall i | 0 <= i < n && ResolverOf(f, f.metrics[i]).Some? ::
         Legal(env, ResolverOf(f, f.metrics[i]).value, f, f.metrics[i], o, draws[i])
  }

  /** The family may be rendered as text with this sample count. */
  ghost predicate Outcome(env: Env, f: Config, o: Object, text: string, count: nat) {
    exists draws :: LegalDraws(env, f, o, draws, |f.metrics|) && IsOutcome(env, f, o, draws, text, count)
  }

  ghost predicate IsOutcome(env: Env, f: Config, o: Object, draws: seq<Draw>, text: string, count: nat)
    requires |draws| == |f.metrics|
  {
    text == FamilyText(env, f, o, draws, |f.metrics|) && count == FamilyCount(env, f, o, draws, |f.metrics|)
  }

  // ---- rendering -----------------------------------------------------------------------------------

  datatype ValueResult = Nothing | Failure | Value(value: string)

  method ToSlice(xs: seq<string>) returns (s: Slice)
    ensures s.Valid() && fresh(s.data) && s.Elems() == xs
  {
    var data := new string[|xs|](_ => "");
    forall i | 0 <= i < |xs| {
      data[i] := xs[i];
    }
    s := Slice(data, 0, |xs|);
  }

  /** A single value is returned; a list goes into the expanded set under the
      sentinel; an empty result is silently nothing. */
  method ResolveMetricValue(env: Env, rk: ResolverKind, m: Metric, o: Object, expanded: map<string, Slice>)
    returns (result: ValueResult, expanded': map<string, Slice>, ghost r: Resolution, ghost run: seq<string>)
    requires env.Valid() && Separate(expanded) && SENTINEL !in expanded
    ensures Separate(expanded') && (forall d | d in SliceData(expanded') :: d in SliceData(expanded) || fresh(d))
    ensures expanded' - {SENTINEL} == expanded
    ensures env.MayResolve(rk, m.value, o.content, r) && ValueRun(m, r, run)
    ensures result.Value? == (m.value in r || run != [])
    ensures result.Value? ==> result.value == if m.value in r then r[m.value] else ""
    ensures !result.Value? ==> (result == Nothing <==> r == map[])
    ensures if SENTINEL in expanded' then expanded'[SENTINEL].Elems() == run else run == []
  {
    hide IsRun, Separate, Env.MayResolve;
    var resolved := Resolve(env, rk, m.value, o.content);
    r := resolved;
    expanded', run := expanded, [];
    assert expanded - {SENTINEL} == expanded;
    if |resolved| == 0 {
      NoKeysNoRun(r);
      return Nothing, expanded, r, [];
    }
    if m.value in resolved {
      return Value(resolved[m.value]), expanded, r, [];
    }
    var expandedValues := CollectIndexedResolvedValues(resolved);
    run := expandedValues;
    if |expandedValues| == 0 {
      return Failure, expanded, r, run;
    }
    expanded' := AddSentinel(expandedValues, expanded);
    result := Value("");
  }

  method AddSentinel(values: seq<string>, expanded: map<string, Slice>) returns (expanded': map<string, Slice>)
    requires Separate(expanded) && SENTINEL !in expanded
    ensures Separate(expanded') && (forall d | d in SliceData(expanded') :: d in SliceData(expanded) || fresh(d))
    ensures expanded' - {SENTINEL} == expanded && SENTINEL in expanded' && expanded'[SENTINEL].Elems() == values
  {
    var list := ToSlice(values);
    expanded' := expanded[SENTINEL := list];
    assert expanded' - {SENTINEL} == expanded;
  }

  lemma NoKeysNoRun(r: map<string, string>)
    requires |r| == 0
    ensures r == map[] && IsRun(r, [])
  {
  }

  /** A name some label name was sanitized to. */
  ghost predicate Sanitized(env: Env, k: string) {
    exists s :: k == env.sanitize(s)
  }

  lemma SanitizedClean(env: Env, k: string)
    requires env.Valid() && Sanitized(env, k)
    ensures k != SENTINEL && '\n' !in k
  {
    assert SENTINEL[0] == '\0';
  }

  /** The names of the expanded lists are sanitized label names, hence not empty. */
  lemma {:induction false} ExpandedSanitized(env: Env, labels: seq<Label>, rs: seq<Resolution>, runs: seq<seq<string>>)
    requires |runs| == |rs| == |labels|
    ensures forall k | k in Expanded(env, labels, rs, runs) :: exists name: Name :: k == env.sanitize(name)
  {
    hide IsScalar;
    if labels != [] {
      var n := |labels| - 1;
      ExpandedSanitized(env, labels[..n], rs[..n], runs[..n]);
    }
  }

  lemma ExpandedClean(env: Env, labels: seq<Label>, rs: seq<Resolution>, runs: seq<seq<string>>)
    requires env.Valid() && |runs| == |rs| == |labels|
    ensures "" !in Expanded(env, labels, rs, runs) && SENTINEL !in Expanded(env, labels, rs, runs)
  {
    ExpandedSanitized(env, labels, rs, runs);
    hide Expanded;
    forall k | k in Expanded(env, labels, rs, runs) ensures k != "" && k != SENTINEL {
      var name: Name :| k == env.sanitize(name);
      assert Sanitized(env, k);
      SanitizedClean(env, k);
    }
  }

  lemma NoValueOrder(lists: map<string, seq<string>>)
    ensures AnchorOrder(lists, [], [])
  {
    assert Ids(0) == [];
  }

  /** What one metric contributes, given its rows and values. */
  ghost predicate Contributes(c: Context, rows: seq<Row>, xs: seq<string>, text: string, count: nat) {
    if AllWritable(c, xs, |rows|) then Printed(c, xs, rows, "", text) && count == |rows| else text == "" && count == 0
  }

  /** Samples go to a builder of their own, which is thrown away on error. */
  method WriteMetric(c: Context, keys: Slice, values: Slice, ghost lists: map<string, Slice>,
                     expanded: map<string, Slice>,
                     ghost run: seq<string>)
    returns (text: string, count: nat, ghost order: seq<nat>)
    requires Apart(keys, values, expanded) && "" !in expanded && expanded - {SENTINEL} == lists
    requires if SENTINEL in expanded then expanded[SENTINEL].Elems() == run else run == []
    modifies keys.data, values.data, SliceData(expanded)
    ensures AnchorOrder(old(Contents(lists)), run, order)
    ensures var xs := CoSortedValues(old(Contents(lists)), run, order);
            Contributes(c,
                MetricRows(old(keys.Elems()), old(values.Elems()), CoSortedLists(old(Contents(lists)), run, order), xs),
                        xs, text, count)
  {
    hide AnchorOrder, CoSortedLists, CoSortedValues, MetricRows, Printed, AllWritable;
    ghost var contents, ks, vs := Contents(lists), keys.Elems(), values.Elems();
    var b := new Builder();
    assert Contents(expanded - {SENTINEL}) == contents && keys.Elems() == ks && values.Elems() == vs;
    ghost var xs := if SENTINEL in expanded then expanded[SENTINEL].Elems() else [];
    assert xs == run;
    var ok;
    count, ok, order := WriteMetricSamplesWithCount(c, b, keys, values, expanded);
    text := b.text;
    if !ok {
      text, count := "", 0;
    }
  }

  /** The pieces put together: a legal draw, and its text and count. */
  lemma ContributionIs(env: Env, rk: ResolverKind, f: Config, m: Metric, o: Object, d: Draw,
                       lists: map<string, seq<string>>,
                       result: ValueResult, order: seq<nat>, text: string, count: nat)
    requires ResolverOf(f, m) == Some(rk)
    requires Gathered(env, rk, f, m, o, d, lists) && ResultIs(m, d, result)
    requires result.Value? ==>
               AnchorOrder(lists, d.run, order) &&
               var xs := CoSortedValues(lists, d.run, order);
               Contributes(Context(env, o, f.name, KindOf(f.name), result.value),
                           MetricRows(d.keys, d.values, CoSortedLists(lists, d.run, order), xs), xs, text, count)
    requires !result.Value? ==> text == "" && count == 0 && order == []
    ensures Legal(env, rk, f, m, o, d.(order := order))
    ensures text == MetricText(env, f, m, o, d.(order := order))
              && count == MetricCount(env, f, m, o, d.(order := order))
  {
    var d' := d.(order := order);
    assert Lists(env, f, m, d') == lists;
    if !result.Value? {
      NoValueOrder(lists);
    }
    hide AnchorOrder, StaticLabels, LabelRuns, RowsText, Expanded, CoSortedLists, CoSortedValues, MetricRows, ValueRun,
        AllResolve, Env.MayResolve;
    assert Legal(env, rk, f, m, o, d');
    RowsWellFormed(env, rk, f, m, o, d');
  }

  /** One iteration over the metrics of a family. */
  method BuildMetric(env: Env, f: Config, m: Metric, o: Object) returns (text: string, count: nat, ghost d: Draw)
    requires env.Valid()
    ensures ResolverOf(f, m).Some? ==> Legal(env, ResolverOf(f, m).value, f, m, o, d)
    ensures text == MetricText(env, f, m, o, d) && count == MetricCount(env, f, m, o, d)
  {
    hide Legal, MetricText, MetricCount;
    var resolver := ResolverOf(f, m);
    if resolver == None {
      NothingWritten(env, f, m, o);
      return "", 0, NO_DRAW;
    }
    text, count, d := BuildResolved(env, resolver.value, f, m, o);
  }

  lemma NothingWritten(env: Env, f: Config, m: Metric, o: Object)
    requires ResolverOf(f, m) == None
    ensures forall d :: MetricText(env, f, m, o, d) == "" && MetricCount(env, f, m, o, d) == 0
  {
  }

  method BuildResolved(env: Env, rk: ResolverKind, f: Config, m: Metric, o: Object)
    returns (text: string, count: nat, ghost d: Draw)
    requires env.Valid() && ResolverOf(f, m) == Some(rk)
    ensures Legal(env, rk, f, m, o, d)
    ensures text == MetricText(env, f, m, o, d) && count == MetricCount(env, f, m, o, d)
  {
    hide Gathered, ResultIs, Legal, AnchorOrder, Contributes, MetricRows, CoSortedLists, CoSortedValues, MetricText,
        MetricCount;
    var keys, values, expanded, result;
    ghost var lists, order := map[], [];
    keys, values, lists, expanded, result, d := ResolveMetric(env, rk, f, m, o);
    ghost var contents := Contents(lists);
    text, count := "", 0;
    if result.Value? {
      text, count, order :=
        WriteMetric(Context(env, o, f.name, KindOf(f.name), result.value), keys, values, lists, expanded, d.run);
    }
    ContributionIs(env, rk, f, m, o, d, contents, result, order, text, count);
    d := d.(order := order);
  }

  /** d is legal as far as the labels and the value list go. */
  ghost predicate Gathered(env: Env, rk: ResolverKind, f: Config, m: Metric, o: Object, d: Draw,
                           lists: map<string, seq<string>>) {
    && AllResolve(env, rk, LabelsOf(f, m), o, d.rs)
    && env.MayResolve(rk, m.value, o.content, d.r)
    && StaticLabels(env, LabelsOf(f, m), d.rs, d.keys, d.values)
    && LabelRuns(LabelsOf(f, m), d.rs, d.runs)
    && lists == Lists(env, f, m, d)
    && ValueRun(m, d.r, d.run)
  }

  /** What the value expression came to. */
  ghost predicate ResultIs(m: Metric, d: Draw, result: ValueResult) {
    && result.Value? == HasValue(m, d)
    && (result.Value? ==> result.value == if m.value in d.r then d.r[m.value] else "")
  }

  lemma GatheredFrom(env: Env, rk: ResolverKind, f: Config, m: Metric, o: Object, d: Draw,
                     lists: map<string, seq<string>>,
                     result: ValueResult)
    requires AllResolve(env, rk, LabelsOf(f, m), o, d.rs) && env.MayResolve(rk, m.value, o.content, d.r)
    requires StaticLabels(env, LabelsOf(f, m), d.rs, d.keys, d.values)
    requires |d.runs| == |LabelsOf(f, m)| && LabelRuns(LabelsOf(f, m), d.rs, d.runs)
    requires lists == Expanded(env, LabelsOf(f, m), d.rs, d.runs) && ValueRun(m, d.r, d.run)
    requires result.Value? == (m.value in d.r || d.run != [])
    requires result.Value? ==> result.value == if m.value in d.r then d.r[m.value] else ""
    ensures Gathered(env, rk, f, m, o, d, lists) && ResultIs(m, d, result)
  {
  }

  /** Labels first, then the value into the same expanded set. */
  method ResolveMetric(env: Env, rk: ResolverKind, f: Config, m: Metric, o: Object)
    returns (keys: Slice, values: Slice, ghost lists: map<string, Slice>, expanded: map<string, Slice>,
        result: ValueResult,
             ghost d: Draw)
    requires env.Valid()
    ensures Apart(keys, values, expanded) && "" !in expanded && expanded - {SENTINEL} == lists
    ensures fresh(keys.data) && fresh(values.data) && forall a | a in SliceData(expanded) :: fresh(a)
    ensures if SENTINEL in expanded then expanded[SENTINEL].Elems() == d.run else d.run == []
    ensures d.keys == keys.Elems() && d.values == values.Elems()
    ensures Gathered(env, rk, f, m, o, d, Contents(lists)) && ResultIs(m, d, result)
  {
    hide StaticLabels, LabelRuns, AllResolve, ValueRun, Gathered, ResultIs, Env.MayResolve, Env.Valid;
    var resolved;
    ghost var rs, runs;
    keys, values, resolved, rs, runs := ResolveLabels(env, rk, LabelsOf(f, m), o);
    assert Contents(resolved).Keys == resolved.Keys;
    RunCount(LabelsOf(f, m), rs, runs);
    ExpandedClean(env, LabelsOf(f, m), rs, runs);
    hide Expanded;
    lists, expanded, result, d := ResolveValue(env, rk, f, m, o, keys, values, resolved, rs, runs);
  }

  lemma RunCount(labels: seq<Label>, rs: seq<Resolution>, runs: seq<seq<string>>)
    requires LabelRuns(labels, rs, runs)
    ensures |runs| == |rs| == |labels|
  {
  }

  method ResolveValue(env: Env, rk: ResolverKind, f: Config, m: Metric, o: Object, ghost keys: Slice,
                      ghost values: Slice,
                      resolved: map<string, Slice>, ghost rs: seq<Resolution>, ghost runs: seq<seq<string>>)
    returns (ghost lists: map<string, Slice>, expanded: map<string, Slice>, result: ValueResult, ghost d: Draw)
    requires env.Valid() && Apart(keys, values, resolved) && "" !in resolved && SENTINEL !in resolved
    requires |runs| == |rs| == |LabelsOf(f, m)| && AllResolve(env, rk, LabelsOf(f, m), o, rs)
    requires StaticLabels(env, LabelsOf(f, m), rs, keys.Elems(), values.Elems()) && LabelRuns(LabelsOf(f, m), rs, runs)
    requires Contents(resolved) == Expanded(env, LabelsOf(f, m), rs, runs)
    ensures Apart(keys, values, expanded) && "" !in expanded && expanded - {SENTINEL} == lists
    ensures forall a | a in SliceData(expanded) :: a in SliceData(resolved) || fresh(a)
    ensures if SENTINEL in expanded then expanded[SENTINEL].Elems() == d.run else d.run == []
    ensures d.keys == keys.Elems() && d.values == values.Elems()
    ensures Gathered(env, rk, f, m, o, d, Contents(lists)) && ResultIs(m, d, result)
  {
    hide StaticLabels, LabelRuns, AllResolve, ValueRun, Gathered, ResultIs, Expanded, Env.MayResolve, Env.Valid;
    lists := resolved;
    ghost var contents := Contents(resolved);
    ghost var r, run;
    result, expanded, r, run := ResolveMetricValue(env, rk, m, o, resolved);
    assert Contents(lists) == contents;
    d := Draw(rs, r, keys.Elems(), values.Elems(), runs, run, []);
    GatheredFrom(env, rk, f, m, o, d, contents, result);
    assert "" !in expanded by { assert expanded - {SENTINEL} == lists && "" != SENTINEL; }
    forall k | k in expanded ensures expanded[k].data != keys.data && expanded[k].data != values.data {
      assert expanded[k].data in SliceData(expanded);
    }
  }

  // ---- the family object ---------------------------------------------------------------------------

  /** FamilyType on the path without Starlark. Labels and resolver are inherited
      from the store in place, and cutoff is set by it. */
  class FamilyType {
    const name: string
    const metrics: seq<Metric>
    const help: string
    const createdAt: string  // seconds since the epoch, printed with %f
    var labels: seq<Label>
    var resolver: ResolverKind
    var cutoff: bool

    constructor (config: Config, help: string, createdAt: string)
      ensures Abs() == config && !cutoff && this.help == help && this.createdAt == createdAt
    {
      name, metrics, this.help, this.createdAt := config.name, config.metrics, help, createdAt;
      labels, resolver, cutoff := config.labels, config.resolver, false;
    }

    ghost function Abs(): Config
      reads this
    {
      Config(name, metrics, labels, resolver)
    }

    method SetCutoff(cutoff: bool)
      modifies `cutoff
      ensures this.cutoff == cutoff
    {
      this.cutoff := cutoff;
    }

    /** The family takes over the store's resolver if it has none, and appends the
        store's labels unconditionally. */
    method InheritFamilyConfiguration(storeLabels: seq<Label>, storeResolver: ResolverKind)
      modifies `labels, `resolver
      ensures labels == old(labels) + storeLabels
      ensures resolver == if old(resolver) == Inherit then storeResolver else old(resolver)
    {
      if resolver == Inherit {
        resolver := storeResolver;
      }
      labels := labels + storeLabels;
    }

    /** The text is suppressed when the family is cut off, the count is not: text
        and count come from one and the same rendering. */
    method BuildMetricString(env: Env, o: Object) returns (text: string, count: nat)
      requires env.Valid()
      ensures exists full :: Outcome(env, Abs(), o, full, count) && text == if cutoff then "" else full
    {
      var full := "";
      var sampleCount := 0;
      ghost var f := Abs();
      ghost var draws := seq(|metrics|, i => NO_DRAW);
      for i := 0 to |metrics|
        invariant |draws| == |metrics| && LegalDraws(env, f, o, draws, i)
        invariant full == FamilyText(env, f, o, draws, i) && sampleCount == FamilyCount(env, f, o, draws, i)
      {
        hide Legal, MetricText, MetricCount;
        ghost var d;
        var metricText, samples;
        metricText, samples, d := BuildMetric(env, Config(name, metrics, labels, resolver), metrics[i], o);
        full := full + metricText;
        sampleCount := sampleCount + samples;
        DrawsKept(env, f, o, draws, d, i);
        draws := draws[i := d];
      }
      count := sampleCount;
      text := if cutoff then "" else full;
      assert IsOutcome(env, f, o, draws, full, count);
      assert Outcome(env, Abs(), o, full, count);
    }
  }

  /** Deciding draw i does not disturb what came before. */
  lemma {:induction false} EarlierDraws(env: Env, f: Config, o: Object, draws: seq<Draw>, d: Draw, i: nat, n: nat)
    requires n <= i < |draws| == |f.metrics|
    ensures FamilyText(env, f, o, draws[i := d], n) == FamilyText(env, f, o, draws, n)
    ensures FamilyCount(env, f, o, draws[i := d], n) == FamilyCount(env, f, o, draws, n)
  {
    hide MetricText, MetricCount;
    if n > 0 {
      EarlierDraws(env, f, o, draws, d, i, n - 1);
    }
  }

  lemma DrawsKept(env: Env, f: Config, o: Object, draws: seq<Draw>, d: Draw, i: nat)
    requires i < |draws| == |f.metrics| && LegalDraws(env, f, o, draws, i)
    requires ResolverOf(f, f.metrics[i]).Some? ==> Legal(env, ResolverOf(f, f.metrics[i]).value, f, f.metrics[i], o, d)
    ensures LegalDraws(env, f, o, draws[i := d], i + 1)
    ensures FamilyText(env, f, o, draws[i := d], i + 1)
              == FamilyText(env, f, o, draws, i) + MetricText(env, f, f.metrics[i], o, d)
    ensures FamilyCount(env, f, o, draws[i := d], i + 1)
              == FamilyCount(env, f, o, draws, i) + MetricCount(env, f, f.metrics[i], o, d)
  {
    hide Legal, MetricText, MetricCount;
    EarlierDraws(env, f, o, draws, d, i, i);
  }
}
