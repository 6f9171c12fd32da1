/** What inheriting the store's labels again for every object does to a family:
    the n-th rendering sees n copies of them (internal/store.go:220-226). */
module Generations {
  import opened Basics
  import opened Resources
  import opened Resolvers
  import Collect
  import opened Labels
  import opened Expansion
  import opened Samples
  import opened Family
  import opened FamilyFacts
  import opened Determinism
  import opened Store

  // ---- what the names say ---------------------------------------------------------------

  /** Resolving the expression gives an entry of this name. */
  ghost predicate NameIn(env: Env, rk: ResolverKind, query: string, o: Object, k: string) {
    if rk == Unstructured then k == query else TextsAt(env, 0, query, o.content, k) != {}
  }

  ghost predicate ScalarLabel(env: Env, rk: ResolverKind, lb: Label, o: Object) {
    NameIn(env, rk, lb.value, o, lb.value)
  }

  /** The label resolves to a list with at least one entry. */
  ghost predicate ListLabel(env: Env, rk: ResolverKind, lb: Label, o: Object) {
    !ScalarLabel(env, rk, lb, o) && exists k :: Collect.IndexOf(k) == Some(0) && NameIn(env, rk, lb.value, o, k)
  }

  ghost predicate NoLists(env: Env, rk: ResolverKind, labels: seq<Label>, o: Object) {
    forall lb | lb in labels :: !ListLabel(env, rk, lb, o)
  }

  /** The names the non-scalar labels leave in the expanded set. */
  ghost function ListNames(env: Env, rk: ResolverKind, labels: seq<Label>, o: Object): set<string> {
    set lb | lb in labels && !ScalarLabel(env, rk, lb, o) :: env.sanitize(lb.name)
  }

  /** rs resolves the labels, as far as names go, and runs are lists collected from it. */
  ghost predicate Runs(env: Env, rk: ResolverKind, labels: seq<Label>, o: Object, rs: seq<Resolution>,
                       runs: seq<seq<string>>) {
    && LabelRuns(labels, rs, runs)
    && forall i | 0 <= i < |labels| :: NamesLike(env, rk, labels[i].value, o, rs[i])
  }

  ghost predicate NamesLike(env: Env, rk: ResolverKind, query: string, o: Object, r: Resolution) {
    forall k :: k in r <==> NameIn(env, rk, query, o, k)
  }

  lemma FixedNamesLike(env: Env, rk: ResolverKind, query: string, o: Object, r: Resolution)
    requires NamesFixed(env, rk, query, o.content) && env.MayResolve(rk, query, o.content, r)
    ensures NamesLike(env, rk, query, o, r)
  {
    hide TextsAt;
    if rk != Unstructured {
      hide Env.MayResolve;
      var i := TextOf(env, rk, query, o.content, r);
    }
  }

  function Length(lists: map<string, seq<string>>, k: string): nat {
    if k in lists then |lists[k]| else 0
  }

  lemma RunIsEmpty(env: Env, rk: ResolverKind, lb: Label, o: Object, r: Resolution, run: seq<string>)
    requires NamesLike(env, rk, lb.value, o, r) && if IsScalar(lb, r) then run == [] else Collect.IsRun(r, run)
    ensures IsScalar(lb, r) <==> ScalarLabel(env, rk, lb, o)
    ensures run != [] <==> ListLabel(env, rk, lb, o)
  {
    hide NameIn, Collect.IndexOf;
    if !IsScalar(lb, r) {
      if run != [] {
        assert Collect.IsEntry(r, 0, run[0]);
      }
      assert Collect.HasIndex(r, 0) <==> exists k :: Collect.IndexOf(k) == Some(0) && NameIn(env, rk, lb.value, o, k);
    }
  }

  lemma PrefixRuns(env: Env, rk: ResolverKind, base: seq<Label>, more: seq<Label>, o: Object, rs: seq<Resolution>,
                   runs: seq<seq<string>>)
    requires Runs(env, rk, base + more, o, rs, runs)
    ensures |runs| == |rs| == |base| + |more| && Runs(env, rk, base, o, rs[..|base|], runs[..|base|])
  {
    hide Collect.IsRun, IsScalar, NamesLike;
    forall i | 0 <= i < |base| ensures (base + more)[i] == base[i] {}
  }

  lemma ExtendLength(lists: map<string, seq<string>>, name: string, run: seq<string>)
    ensures Extend(lists, name, run).Keys == lists.Keys + {name}
    ensures forall k :: Length(Extend(lists, name, run), k) == Length(lists, k) + (if k == name then |run| else 0)
  {
  }

  /** One more label: it adds to the list of its own name, if it is not scalar. */
  lemma OneMoreExpanded(env: Env, rk: ResolverKind, labels: seq<Label>, lb: Label, o: Object, rs: seq<Resolution>,
                        runs: seq<seq<string>>)
    requires Runs(env, rk, labels + [lb], o, rs, runs)
    ensures |runs| == |rs| == |labels| + 1
    ensures var lists := Expanded(env, labels, rs[..|labels|], runs[..|labels|]);
            var all := Expanded(env, labels + [lb], rs, runs);
            var name, run := env.sanitize(lb.name), runs[|labels|];
            && (ListLabel(env, rk, lb, o) <==> run != [])
            && all.Keys == lists.Keys + (if ScalarLabel(env, rk, lb, o) then {} else {name})
            && forall k :: Length(all, k) == Length(lists, k) + (if k == name then |run| else 0)
  {
    hide IsScalar, ScalarLabel, ListLabel, NamesLike, Collect.IsRun, Length, Extend;
    var n := |labels|;
    assert (labels + [lb])[..n] == labels && (labels + [lb])[n] == lb;
    RunIsEmpty(env, rk, lb, o, rs[n], runs[n]);
    ExtendLength(Expanded(env, labels, rs[..n], runs[..n]), env.sanitize(lb.name), runs[n]);
  }

  // ---- labels that only add scalars and empty lists ---------------------------------

  lemma {:induction false} NoListsAppended(env: Env, rk: ResolverKind, base: seq<Label>, more: seq<Label>, o: Object,
                                           rs: seq<Resolution>, runs: seq<seq<string>>)
    requires Runs(env, rk, base + more, o, rs, runs) && NoLists(env, rk, more, o)
    ensures var lists := Expanded(env, base, rs[..|base|], runs[..|base|]);
            var all := Expanded(env, base + more, rs, runs);
            all.Keys == lists.Keys + ListNames(env, rk, more, o) && forall k :: Length(all, k) == Length(lists, k)
    decreases |more|
  {
    hide Expanded, Length, ScalarLabel, ListLabel, NamesLike, Collect.IsRun;
    if more == [] {
      assert ListNames(env, rk, more, o) == {};
      assert base + more == base && runs[..|base|] == runs && rs[..|base|] == rs;
    } else {
      hide Runs, LabelRuns, Expanded, ListLabel, Length, ScalarLabel, ListNames;
      var n, lb := |more| - 1, more[|more| - 1];
      var longer := base + more[..n];
      assert base + more == longer + [lb] && more == more[..n] + [lb];
      assert NoLists(env, rk, more[..n], o) && !ListLabel(env, rk, lb, o);
      hide NoLists;
      PrefixRuns(env, rk, longer, [lb], o, rs, runs);
      assert runs[..|longer|][..|base|] == runs[..|base|] && rs[..|longer|][..|base|] == rs[..|base|];
      OneMoreName(env, rk, more[..n], lb, o);
      NoListsAppended(env, rk, base, more[..n], o, rs[..|longer|], runs[..|longer|]);
      OneMoreExpanded(env, rk, longer, lb, o, rs, runs);
      assert runs[|longer|] == [];
    }
  }

  lemma OneMoreName(env: Env, rk: ResolverKind, labels: seq<Label>, lb: Label, o: Object)
    ensures ListNames(env, rk, labels + [lb], o)
         == ListNames(env, rk, labels, o) + (if ScalarLabel(env, rk, lb, o) then {} else {env.sanitize(lb.name)})
  {
    hide ScalarLabel;
  }

  lemma {:induction false} InCopies(labels: seq<Label>, n: nat, lb: Label)
    ensures lb in Copies(labels, n) <==> n > 0 && lb in labels
  {
    if n > 0 {
      InCopies(labels, n - 1, lb);
    }
  }

  lemma CopiesNames(env: Env, rk: ResolverKind, labels: seq<Label>, o: Object, n: nat)
    requires n > 0
    ensures ListNames(env, rk, Copies(labels, n), o) == ListNames(env, rk, labels, o)
    ensures NoLists(env, rk, labels, o) ==> NoLists(env, rk, Copies(labels, n), o)
  {
    hide ScalarLabel, ListLabel;
    forall lb ensures lb in Copies(labels, n) <==> lb in labels { InCopies(labels, n, lb); }
  }

  /** The resolutions and runs of a legal rendering. */
  lemma LegalRuns(env: Env, rk: ResolverKind, f: Config, m: Metric, o: Object, d: Draw)
    requires AllFixed(env, rk, LabelsOf(f, m), o) && Legal(env, rk, f, m, o, d)
    ensures Runs(env, rk, LabelsOf(f, m), o, d.rs, d.runs)
  {
    hide NamesFixed, Env.MayResolve, NamesLike, StaticLabels, AnchorOrder, Expanded, Collect.IsRun, ValueRun;
    var labels := LabelsOf(f, m);
    forall i | 0 <= i < |labels| ensures NamesLike(env, rk, labels[i].value, o, d.rs[i]) {
      assert labels[i] in labels;
      FixedNamesLike(env, rk, labels[i].value, o, d.rs[i]);
    }
  }

  lemma LabelsSplit(f: Config, labels: seq<Label>, resolver: ResolverKind, m: Metric, g: nat)
    ensures LabelsOf(ConfigAt(f, labels, resolver, g), m) == m.labels + f.labels + Copies(labels, g)
  {
    assert m.labels + (f.labels + Copies(labels, g)) == m.labels + f.labels + Copies(labels, g);
  }

  /** All labels the metric can get have fixed names. */
  ghost predicate FixedLabels(env: Env, rk: ResolverKind, f: Config, labels: seq<Label>, m: Metric, o: Object) {
    AllFixed(env, rk, m.labels + f.labels + labels, o)
  }

  lemma FixedAt(env: Env, rk: ResolverKind, f: Config, labels: seq<Label>, resolver: ResolverKind, m: Metric,
                o: Object, g: nat)
    requires FixedLabels(env, rk, f, labels, m, o)
    ensures AllFixed(env, rk, LabelsOf(ConfigAt(f, labels, resolver, g), m), o)
  {
    hide NamesFixed;
    LabelsSplit(f, labels, resolver, m, g);
    forall lb | lb in m.labels + f.labels + Copies(labels, g) ensures lb in m.labels + f.labels + labels {
      InCopies(labels, g, lb);
    }
  }

  /** Without lists among the store's labels, any two generations expand to lists
      of the same names and lengths. */
  lemma GenerationsAlike(env: Env, rk: ResolverKind, f: Config, labels: seq<Label>, resolver: ResolverKind, m: Metric,
                         o: Object,
                         g: nat, d: Draw, h: nat, e: Draw)
    requires g > 0 && h > 0 && NoLists(env, rk, labels, o) && FixedLabels(env, rk, f, labels, m, o)
    requires Legal(env, rk, ConfigAt(f, labels, resolver, g), m, o, d)
               && Legal(env, rk, ConfigAt(f, labels, resolver, h), m, o, e)
    ensures SameShape(Lists(env, ConfigAt(f, labels, resolver, g), m, d),
              Lists(env, ConfigAt(f, labels, resolver, h), m, e))
  {
    var base := m.labels + f.labels;
    var fg, fh := ConfigAt(f, labels, resolver, g), ConfigAt(f, labels, resolver, h);
    FixedAt(env, rk, f, labels, resolver, m, o, g);
    FixedAt(env, rk, f, labels, resolver, m, o, h);
    LegalRuns(env, rk, fg, m, o, d);
    LegalRuns(env, rk, fh, m, o, e);
    LabelsSplit(f, labels, resolver, m, g);
    LabelsSplit(f, labels, resolver, m, h);
    hide NoLists, Legal, AllFixed, Runs, FixedLabels;
    CopiesNames(env, rk, labels, o, g);
    CopiesNames(env, rk, labels, o, h);
    hide ListNames;
    BaseShape(env, rk, base, Copies(labels, g), Copies(labels, h), o, d.rs, d.runs, e.rs, e.runs);
    NoListsAppended(env, rk, base, Copies(labels, g), o, d.rs, d.runs);
    NoListsAppended(env, rk, base, Copies(labels, h), o, e.rs, e.runs);
    SameLengths(Lists(env, fg, m, d), Lists(env, fh, m, e));
  }

  lemma SameLengths(a: map<string, seq<string>>, b: map<string, seq<string>>)
    requires a.Keys == b.Keys && forall k :: Length(a, k) == Length(b, k)
    ensures SameShape(a, b)
  {
    forall k | k in a ensures |a[k]| == |b[k]| { assert Length(a, k) == Length(b, k); }
  }

  lemma BaseShape(env: Env, rk: ResolverKind, base: seq<Label>, more: seq<Label>, more2: seq<Label>, o: Object,
                  rs: seq<Resolution>, runs: seq<seq<string>>, rs2: seq<Resolution>, runs2: seq<seq<string>>)
    requires Runs(env, rk, base + more, o, rs, runs) && Runs(env, rk, base + more2, o, rs2, runs2)
    ensures |runs| == |rs| >= |base| && |runs2| == |rs2| >= |base|
    ensures SameShape(Expanded(env, base, rs[..|base|], runs[..|base|]),
              Expanded(env, base, rs2[..|base|], runs2[..|base|]))
  {
    PrefixRuns(env, rk, base, more, o, rs, runs);
    PrefixRuns(env, rk, base, more2, o, rs2, runs2);
    hide LabelRuns, NameIn, Expanded;
    var n := |base|;
    forall i | 0 <= i < n ensures rs[..n][i].Keys == rs2[..n][i].Keys {
      assert NamesLike(env, rk, base[i].value, o, rs[..n][i]) && NamesLike(env, rk, base[i].value, o, rs2[..n][i]);
    }
    ExpandedShape(env, base, rs[..n], rs2[..n], runs[..n], runs2[..n]);
  }

  // ---- labels that hold a list -------------------------------------------------------

  /** Appending labels never shortens a list, and a list label among them adds to
      the list of its name. */
  lemma {:induction false} ListsGrow(env: Env, rk: ResolverKind, base: seq<Label>, more: seq<Label>, o: Object,
                                     rs: seq<Resolution>, runs: seq<seq<string>>)
    requires Runs(env, rk, base + more, o, rs, runs)
    ensures var lists := Expanded(env, base, rs[..|base|], runs[..|base|]);
            var all := Expanded(env, base + more, rs, runs);
            && (forall k :: Length(all, k) >= Length(lists, k))
            && (forall lb | lb in more && ListLabel(env, rk, lb, o) ::
                  Length(all, env.sanitize(lb.name)) > Length(lists, env.sanitize(lb.name)))
    decreases |more|
  {
    hide Expanded, Length, ScalarLabel, ListLabel, NamesLike, Collect.IsRun;
    if more == [] {
      assert base + more == base && runs[..|base|] == runs && rs[..|base|] == rs;
    } else {
      hide Runs, LabelRuns, Expanded, ListLabel, Length, ScalarLabel;
      var n, lb := |more| - 1, more[|more| - 1];
      var longer := base + more[..n];
      assert base + more == longer + [lb] && more == more[..n] + [lb];
      PrefixRuns(env, rk, longer, [lb], o, rs, runs);
      assert runs[..|longer|][..|base|] == runs[..|base|] && rs[..|longer|][..|base|] == rs[..|base|];
      ListsGrow(env, rk, base, more[..n], o, rs[..|longer|], runs[..|longer|]);
      OneMoreExpanded(env, rk, longer, lb, o, rs, runs);
    }
  }

  lemma {:induction false} CopiesGrow(env: Env, rk: ResolverKind, base: seq<Label>, labels: seq<Label>, g: nat,
                                      lb: Label,
                                      o: Object, rs: seq<Resolution>, runs: seq<seq<string>>)
    requires Runs(env, rk, base + Copies(labels, g), o, rs, runs) && lb in labels && ListLabel(env, rk, lb, o)
    ensures Length(Expanded(env, base + Copies(labels, g), rs, runs), env.sanitize(lb.name)) >= g
  {
    if g > 0 {
      hide Runs, ListLabel, Expanded;
      var before := base + Copies(labels, g - 1);
      assert base + Copies(labels, g) == before + labels;
      PrefixRuns(env, rk, before, labels, o, rs, runs);
      CopiesGrow(env, rk, base, labels, g - 1, lb, o, rs[..|before|], runs[..|before|]);
      ListsGrow(env, rk, before, labels, o, rs, runs);
    }
  }

  // ---- counts from one generation to another -------------------------------------------

  lemma LongList(lists: map<string, seq<string>>, xs: seq<string>, k: string)
    requires Length(lists, k) > 0
    ensures RowCountOf(lists, xs) >= Length(lists, k)
  {
    var names := SortedNames(lists.Keys);
    EnumerationFacts(names, lists.Keys);
    assert k in names;
  }

  /** A store label that holds a list gives the g-th rendering at least g rows. */
  lemma RowsGrow(env: Env, rk: ResolverKind, f: Config, labels: seq<Label>, resolver: ResolverKind, m: Metric,
                 o: Object, lb: Label, g: nat, d: Draw)
    requires g > 0 && FixedLabels(env, rk, f, labels, m, o) && lb in labels && ListLabel(env, rk, lb, o)
    requires Legal(env, rk, ConfigAt(f, labels, resolver, g), m, o, d)
    ensures RowCountOf(Lists(env, ConfigAt(f, labels, resolver, g), m, d), d.run) >= g
  {
    var fg := ConfigAt(f, labels, resolver, g);
    FixedAt(env, rk, f, labels, resolver, m, o, g);
    LegalRuns(env, rk, fg, m, o, d);
    LabelsSplit(f, labels, resolver, m, g);
    hide Legal, ListLabel, Expanded, FixedLabels, AllFixed, Runs, RowCountOf, Length;
    CopiesGrow(env, rk, m.labels + f.labels, labels, g, lb, o, d.rs, d.runs);
    LongList(Lists(env, fg, m, d), d.run, env.sanitize(lb.name));
  }

  /** The number of samples by rows and values, before sorting. */
  lemma CountByRows(env: Env, rk: ResolverKind, f: Config, m: Metric, o: Object, d: Draw)
    requires ResolverOf(f, m) == Some(rk) && Legal(env, rk, f, m, o, d)
    ensures |d.runs| == |d.rs| == |LabelsOf(f, m)|
    ensures var n := RowCountOf(Lists(env, f, m, d), d.run);
            var shown := HasValue(m, d) && AllWritable(ContextOf(env, f, m, o, d), d.run, n);
            MetricCount(env, f, m, o, d) == if shown then n else 0
  {
    LegalCounts(env, rk, f, m, o, d);
    hide Expanded, AnchorOrder, CoSortedLists, CoSortedValues, MetricRows, RowCountOf, AllWritable, StaticLabels,
        LabelRuns;
    hide AllResolve, Env.MayResolve, ValueRun;
    var lists := Lists(env, f, m, d);
    RowsShape(d.keys, d.values, lists, d.run, d.order);
    WritableUnsorted(ContextOf(env, f, m, o, d), lists, d.run, d.order);
  }

  /** The value expression gives one value, and it can be written. */
  predicate WritableValue(env: Env, f: Config, m: Metric, d: Draw) {
    m.value in d.r && Exposition.Writable(env, d.r[m.value], KindOf(f.name))
  }

  /** A single-valued metric then has at least g samples. */
  lemma CountGrows(env: Env, rk: ResolverKind, f: Config, labels: seq<Label>, resolver: ResolverKind, m: Metric,
                   o: Object, lb: Label, g: nat, d: Draw)
    requires g > 0 && FixedLabels(env, rk, f, labels, m, o) && lb in labels && ListLabel(env, rk, lb, o)
    requires ResolverOf(ConfigAt(f, labels, resolver, g), m) == Some(rk)
    requires Legal(env, rk, ConfigAt(f, labels, resolver, g), m, o, d) && WritableValue(env, f, m, d)
    ensures MetricCount(env, ConfigAt(f, labels, resolver, g), m, o, d) >= g
  {
    var fg := ConfigAt(f, labels, resolver, g);
    NoRunBesideValue(env, rk, fg, m, o, d);
    hide Legal, ListLabel, FixedLabels, RowCountOf, MetricCount, Exposition.Writable;
    RowsGrow(env, rk, f, labels, resolver, m, o, lb, g, d);
    CountByRows(env, rk, fg, m, o, d);
  }

  lemma NoRunBesideValue(env: Env, rk: ResolverKind, f: Config, m: Metric, o: Object, d: Draw)
    requires Legal(env, rk, f, m, o, d) && m.value in d.r
    ensures d.run == []
  {
  }

  /** A metric with a list of values drops to no samples as soon as there are more
      rows than values: the row past the last value has "" for one. */
  lemma CountDrops(env: Env, rk: ResolverKind, f: Config, labels: seq<Label>, resolver: ResolverKind, m: Metric,
                   o: Object, lb: Label, g: nat, d: Draw)
    requires env.Valid() && g > |d.run| && FixedLabels(env, rk, f, labels, m, o) && lb in labels
               && ListLabel(env, rk, lb, o)
    requires ResolverOf(ConfigAt(f, labels, resolver, g), m) == Some(rk)
    requires Legal(env, rk, ConfigAt(f, labels, resolver, g), m, o, d) && !WritableValue(env, f, m, d)
    ensures MetricCount(env, ConfigAt(f, labels, resolver, g), m, o, d) == 0
  {
    var fg := ConfigAt(f, labels, resolver, g);
    if m.value in d.r {
      NoRunBesideValue(env, rk, fg, m, o, d);
    }
    hide Legal, ListLabel, FixedLabels, RowCountOf, MetricCount;
    RowsGrow(env, rk, f, labels, resolver, m, o, lb, g, d);
    CountByRows(env, rk, fg, m, o, d);
    var c := ContextOf(env, fg, m, o, d);
    assert !RowWritable(c, d.run, |d.run|);
  }

  lemma LegalCounts(env: Env, rk: ResolverKind, f: Config, m: Metric, o: Object, d: Draw)
    requires Legal(env, rk, f, m, o, d)
    ensures |d.runs| == |d.rs| == |LabelsOf(f, m)|
  {
  }
}
