/** Exactly when an object's counts are the same at every rendering. */
module Counts {
  import opened Basics
  import opened Resources
  import opened Resolvers
  import opened Collect
  import opened Exposition
  import opened Labels
  import opened Expansion
  import opened Samples
  import opened Family
  import opened FamilyFacts
  import opened Determinism
  import opened MetricValues
  import opened Store
  import opened Generations

  // ---- the number of rows, by names alone -------------------------------------------------

  ghost predicate Carries(env: Env, rk: ResolverKind, query: string, o: Object, i: nat) {
    exists k :: IndexOf(k) == Some(i) && NameIn(env, rk, query, o, k)
  }

  ghost predicate IsLength(env: Env, rk: ResolverKind, query: string, o: Object, n: nat) {
    (forall i: nat | i < n :: Carries(env, rk, query, o, i)) && !Carries(env, rk, query, o, n)
  }

  /** How many list entries the expression gives. */
  ghost function ListLength(env: Env, rk: ResolverKind, query: string, o: Object): nat {
    if exists n: nat :: IsLength(env, rk, query, o, n) then
      var n: nat :| IsLength(env, rk, query, o, n);
      n
    else 0
  }

  function Blanks(n: nat): (r: seq<string>)
    ensures |r| == n
  {
    seq(n, i => "")
  }

  /** The expanded lists, as far as names and lengths go. */
  ghost function NamedLists(env: Env, rk: ResolverKind, labels: seq<Label>, o: Object): map<string, seq<string>> {
    if labels == [] then map[]
    else
      var lists, lb := NamedLists(env, rk, labels[..|labels| - 1], o), labels[|labels| - 1];
      if ScalarLabel(env, rk, lb, o) then lists
      else Extend(lists, env.sanitize(lb.name), Blanks(ListLength(env, rk, lb.value, o)))
  }

  ghost function NamedRun(env: Env, rk: ResolverKind, m: Metric, o: Object): seq<string> {
    if NameIn(env, rk, m.value, o, m.value) then [] else Blanks(ListLength(env, rk, m.value, o))
  }

  /** The number of rows of the metric at the g-th rendering. */
  ghost function RowsAt(env: Env, rk: ResolverKind, f: Config, labels: seq<Label>, m: Metric, o: Object, g: nat): nat {
    RowCountOf(NamedLists(env, rk, m.labels + f.labels + Copies(labels, g), o), NamedRun(env, rk, m, o))
  }

  lemma LengthOfRun(env: Env, rk: ResolverKind, query: string, o: Object, r: Resolution, run: seq<string>)
    requires NamesLike(env, rk, query, o, r) && IsRun(r, run)
    ensures |run| == ListLength(env, rk, query, o)
  {
    hide IndexOf, NameIn;
    forall i: nat ensures Carries(env, rk, query, o, i) <==> HasIndex(r, i) {
      if k :| IndexOf(k) == Some(i) && NameIn(env, rk, query, o, k) { assert k in r; }
      if k :| k in r && IndexOf(k) == Some(i) { assert NameIn(env, rk, query, o, k); }
    }
    forall i: nat | i < |run| ensures HasIndex(r, i) { assert IsEntry(r, i, run[i]); }
    assert IsLength(env, rk, query, o, |run|);
  }

  lemma {:induction false} NamedShape(env: Env, rk: ResolverKind, labels: seq<Label>, o: Object, rs: seq<Resolution>,
                                      runs: seq<seq<string>>)
    requires Runs(env, rk, labels, o, rs, runs)
    ensures |runs| == |rs| == |labels|
    ensures SameShape(Expanded(env, labels, rs, runs), NamedLists(env, rk, labels, o))
  {
    if labels != [] {
      var n := |labels| - 1;
      var lb := labels[n];
      assert labels == labels[..n] + [lb];
      PrefixRuns(env, rk, labels[..n], [lb], o, rs, runs);
      NamedShape(env, rk, labels[..n], o, rs[..n], runs[..n]);
      assert NamesLike(env, rk, lb.value, o, rs[n]);
      hide NameIn, IsRun, ListLength, NamesLike, SameShape, ScalarLabel, ListLabel, IsScalar, Extend;
      RunIsEmpty(env, rk, lb, o, rs[n], runs[n]);
      if !IsScalar(lb, rs[n]) {
        LengthOfRun(env, rk, lb.value, o, rs[n], runs[n]);
        ExtendShape(Expanded(env, labels[..n], rs[..n], runs[..n]), NamedLists(env, rk, labels[..n], o),
                    env.sanitize(lb.name), runs[n], Blanks(ListLength(env, rk, lb.value, o)));
      }
    }
  }

  lemma ExtendShape(a: map<string, seq<string>>, b: map<string, seq<string>>, name: string, x: seq<string>,
                    y: seq<string>)
    requires SameShape(a, b) && |x| == |y|
    ensures SameShape(Extend(a, name, x), Extend(b, name, y))
  {
  }

  /** Only the number of values matters. */
  lemma RowCountByLength(lists: map<string, seq<string>>, xs: seq<string>, ys: seq<string>)
    requires |xs| == |ys|
    ensures RowCountOf(lists, xs) == RowCountOf(lists, ys)
  {
  }

  lemma RowsOfDraw(env: Env, rk: ResolverKind, f: Config, labels: seq<Label>, resolver: ResolverKind, m: Metric,
                   o: Object, g: nat, d: Draw)
    requires FixedLabels(env, rk, f, labels, m, o) && NamesFixed(env, rk, m.value, o.content)
    requires Legal(env, rk, ConfigAt(f, labels, resolver, g), m, o, d)
    ensures |d.runs| == |d.rs| == |LabelsOf(ConfigAt(f, labels, resolver, g), m)|
    ensures RowCountOf(Lists(env, ConfigAt(f, labels, resolver, g), m, d), d.run) == RowsAt(env, rk, f, labels, m, o, g)
  {
    var fg := ConfigAt(f, labels, resolver, g);
    FixedAt(env, rk, f, labels, resolver, m, o, g);
    LegalRuns(env, rk, fg, m, o, d);
    LegalValue(env, rk, fg, m, o, d);
    LabelsSplit(f, labels, resolver, m, g);
    hide Legal, FixedLabels, AllFixed, NamesFixed, Runs, RowCountOf, NamedLists, ListLength, NameIn;
    NamedShape(env, rk, LabelsOf(fg, m), o, d.rs, d.runs);
    ShapeDecides(Lists(env, fg, m, d), NamedLists(env, rk, LabelsOf(fg, m), o), d.run);
    RunNamed(env, rk, m, o, d.r, d.run);
    RowCountByLength(NamedLists(env, rk, LabelsOf(fg, m), o), d.run, NamedRun(env, rk, m, o));
  }

  lemma LegalValue(env: Env, rk: ResolverKind, f: Config, m: Metric, o: Object, d: Draw)
    requires Legal(env, rk, f, m, o, d)
    ensures MayHave(env, rk, m, o, d.r, d.run)
  {
  }

  lemma RunNamed(env: Env, rk: ResolverKind, m: Metric, o: Object, r: Resolution, run: seq<string>)
    requires NamesFixed(env, rk, m.value, o.content) && MayHave(env, rk, m, o, r, run)
    ensures |run| == |NamedRun(env, rk, m, o)| && (m.value in r <==> NameIn(env, rk, m.value, o, m.value))
  {
    hide NamesFixed, Env.MayResolve, NameIn, IsRun, ListLength;
    FixedNamesLike(env, rk, m.value, o, r);
    if m.value !in r {
      LengthOfRun(env, rk, m.value, o, r, run);
    }
  }

  // ---- counts by values -------------------------------------------------------------------

  function ValueContext(env: Env, f: Config, m: Metric, o: Object, r: Resolution): Context {
    Context(env, o, f.name, KindOf(f.name), if m.value in r then r[m.value] else "")
  }

  /** The value, single or list, fills n rows: there are rows and a value, and each
      row gets a number that can be written. */
  ghost predicate Fills(env: Env, f: Config, m: Metric, o: Object, r: Resolution, run: seq<string>, n: nat) {
    n > 0 && (m.value in r || run != []) && AllWritable(ValueContext(env, f, m, o, r), run, n)
  }

  lemma CountIs(env: Env, rk: ResolverKind, f: Config, labels: seq<Label>, resolver: ResolverKind, m: Metric,
                o: Object, g: nat, d: Draw)
    requires FixedLabels(env, rk, f, labels, m, o) && NamesFixed(env, rk, m.value, o.content)
    requires ResolverOf(ConfigAt(f, labels, resolver, g), m) == Some(rk)
    requires Legal(env, rk, ConfigAt(f, labels, resolver, g), m, o, d)
    ensures var n := RowsAt(env, rk, f, labels, m, o, g);
            var fills := Fills(env, f, m, o, d.r, d.run, n);
            MetricCount(env, ConfigAt(f, labels, resolver, g), m, o, d) == if fills then n else 0
  {
    hide Legal, FixedLabels, NamesFixed, RowsAt, RowCountOf, MetricCount, AllWritable;
    RowsOfDraw(env, rk, f, labels, resolver, m, o, g, d);
    CountByRows(env, rk, ConfigAt(f, labels, resolver, g), m, o, d);
  }

  // ---- rows from one generation to another --------------------------------------------------

  lemma SameRowsWithoutLists(env: Env, rk: ResolverKind, f: Config, labels: seq<Label>, resolver: ResolverKind,
                             m: Metric, o: Object, g: nat, h: nat)
    requires g > 0 && h > 0 && FixedLabels(env, rk, f, labels, m, o) && NamesFixed(env, rk, m.value, o.content)
    requires NoLists(env, rk, labels, o)
    ensures RowsAt(env, rk, f, labels, m, o, g) == RowsAt(env, rk, f, labels, m, o, h)
  {
    hide Legal, FixedLabels, NamesFixed, NoLists, RowsAt, RowCountOf, ConfigAt, SameShape;
    var fg, fh := ConfigAt(f, labels, resolver, g), ConfigAt(f, labels, resolver, h);
    var d := SomeDraw(env, rk, fg, m, o);
    var e := SomeDraw(env, rk, fh, m, o);
    RowsOfDraw(env, rk, f, labels, resolver, m, o, g, d);
    RowsOfDraw(env, rk, f, labels, resolver, m, o, h, e);
    GenerationsAlike(env, rk, f, labels, resolver, m, o, g, d, h, e);
    ShapeDecides(Lists(env, fg, m, d), Lists(env, fh, m, e), d.run);
    LegalValue(env, rk, fg, m, o, d);
    LegalValue(env, rk, fh, m, o, e);
    hide MayHave, NamedRun;
    RunNamed(env, rk, m, o, d.r, d.run);
    RunNamed(env, rk, m, o, e.r, e.run);
    RowCountByLength(Lists(env, fh, m, e), d.run, e.run);
  }

  lemma RowsGrowWithLists(env: Env, rk: ResolverKind, f: Config, labels: seq<Label>, resolver: ResolverKind,
                          m: Metric, o: Object, g: nat)
    requires g > 0 && FixedLabels(env, rk, f, labels, m, o) && NamesFixed(env, rk, m.value, o.content)
    requires !NoLists(env, rk, labels, o)
    ensures RowsAt(env, rk, f, labels, m, o, g) >= g
    ensures RowsAt(env, rk, f, labels, m, o, g) >= RowsAt(env, rk, f, labels, m, o, 1) > 0
  {
    hide Legal, FixedLabels, NamesFixed, ListLabel, RowsAt, RowCountOf, ConfigAt;
    var lb :| lb in labels && ListLabel(env, rk, lb, o);
    forall h: nat | h > 0 ensures RowsAt(env, rk, f, labels, m, o, h) >= h {
      var fh := ConfigAt(f, labels, resolver, h);
      var d := SomeDraw(env, rk, fh, m, o);
      RowsOfDraw(env, rk, f, labels, resolver, m, o, h, d);
      RowsGrow(env, rk, f, labels, resolver, m, o, lb, h, d);
    }
    MoreCopies(env, rk, f, labels, m, o, g, lb);
  }

  /** b has the lists of a and may have more and longer ones. */
  ghost predicate Within(a: map<string, seq<string>>, b: map<string, seq<string>>) {
    a.Keys <= b.Keys && forall k | k in a :: |a[k]| <= |b[k]|
  }

  lemma NamedOneMore(env: Env, rk: ResolverKind, labels: seq<Label>, lb: Label, o: Object)
    ensures Within(NamedLists(env, rk, labels, o), NamedLists(env, rk, labels + [lb], o))
  {
    hide ScalarLabel, ListLength;
    assert (labels + [lb])[..|labels|] == labels;
  }

  lemma WithinTrans(a: map<string, seq<string>>, b: map<string, seq<string>>, c: map<string, seq<string>>)
    requires Within(a, b) && Within(b, c)
    ensures Within(a, c)
  {
  }

  lemma {:induction false} NamedGrow(env: Env, rk: ResolverKind, labels: seq<Label>, more: seq<Label>, o: Object)
    ensures Within(NamedLists(env, rk, labels, o), NamedLists(env, rk, labels + more, o))
    decreases |more|
  {
    hide NamedLists;
    if more == [] {
      assert labels + more == labels;
    } else {
      hide Within;
      var n := |more| - 1;
      NamedGrow(env, rk, labels, more[..n], o);
      NamedOneMore(env, rk, labels + more[..n], more[n], o);
      assert labels + more == labels + more[..n] + [more[n]];
      WithinTrans(NamedLists(env, rk, labels, o), NamedLists(env, rk, labels + more[..n], o),
                  NamedLists(env, rk, labels + more, o));
    }
  }

  lemma {:induction false} CopiesSplit(labels: seq<Label>, g: nat)
    requires g > 0
    ensures Copies(labels, g) == labels + Copies(labels, g - 1)
  {
    if g > 1 {
      CopiesSplit(labels, g - 1);
      assert labels + Copies(labels, g - 2) + labels == labels + (Copies(labels, g - 2) + labels);
    } else {
      assert Copies(labels, 1) == [] + labels;
    }
  }

  lemma {:induction false} MaxLenAt(names: seq<string>, lists: map<string, seq<string>>) returns (k: string)
    requires names != [] && forall i | 0 <= i < |names| :: names[i] in lists
    ensures k in names && MaxLen(names, lists) == |lists[k]|
  {
    var n := |names| - 1;
    k := names[n];
    if n > 0 {
      var j := MaxLenAt(names[..n], lists);
      if |lists[names[n]]| <= MaxLen(names[..n], lists) {
        k := j;
      }
    }
  }

  lemma RowCountGrows(a: map<string, seq<string>>, b: map<string, seq<string>>, xs: seq<string>)
    requires a != map[] && Within(a, b)
    ensures RowCountOf(a, xs) <= RowCountOf(b, xs)
  {
    var names, names' := SortedNames(a.Keys), SortedNames(b.Keys);
    EnumerationFacts(names, a.Keys);
    EnumerationFacts(names', b.Keys);
    var some :| some in a;
    assert some in b && some in names;
    var k := MaxLenAt(names, a);
    assert k in a && |a[k]| <= |b[k]| && k in names';
  }

  lemma MoreCopies(env: Env, rk: ResolverKind, f: Config, labels: seq<Label>, m: Metric, o: Object, g: nat, lb: Label)
    requires g > 0 && lb in labels && ListLabel(env, rk, lb, o)
    ensures RowsAt(env, rk, f, labels, m, o, 1) <= RowsAt(env, rk, f, labels, m, o, g)
  {
    hide RowCountOf, NamedLists;
    var base := m.labels + f.labels;
    CopiesSplit(labels, g);
    assert Copies(labels, 1) == labels by { CopiesSplit(labels, 1); }
    assert base + Copies(labels, g) == base + labels + Copies(labels, g - 1);
    NamedGrow(env, rk, base + labels, Copies(labels, g - 1), o);
    ListIsNamed(env, rk, base + labels, o, lb);
    RowCountGrows(NamedLists(env, rk, base + labels, o), NamedLists(env, rk, base + Copies(labels, g), o),
                  NamedRun(env, rk, m, o));
  }

  lemma {:induction false} ListIsNamed(env: Env, rk: ResolverKind, labels: seq<Label>, o: Object, lb: Label)
    requires lb in labels && ListLabel(env, rk, lb, o)
    ensures NamedLists(env, rk, labels, o) != map[]
  {
    hide ScalarLabel, ListLength;
    var n := |labels| - 1;
    if labels[n] != lb {
      ListIsNamed(env, rk, labels[..n], o, lb);
      var k :| k in NamedLists(env, rk, labels[..n], o);
      assert k in NamedLists(env, rk, labels, o);
    } else {
      assert env.sanitize(lb.name) in NamedLists(env, rk, labels, o);
    }
  }

  // ---- one metric -----------------------------------------------------------------------------

  /** What the metric's value and labels are named is the same at every instant. */
  ghost predicate FixedMetric(env: Env, rk: ResolverKind, f: Config, labels: seq<Label>, m: Metric, o: Object) {
    FixedLabels(env, rk, f, labels, m, o) && NamesFixed(env, rk, m.value, o.content)
  }

  /** Nothing the value expression may come to fills the rows, or no label of the
      store holds a list and everything does. */
  ghost predicate SteadyCount(env: Env, rk: ResolverKind, f: Config, labels: seq<Label>, m: Metric, o: Object) {
    var n := RowsAt(env, rk, f, labels, m, o, 1);
    || (forall r, run | MayHave(env, rk, m, o, r, run) :: !Fills(env, f, m, o, r, run, n))
    || (NoLists(env, rk, labels, o) && forall r, run | MayHave(env, rk, m, o, r, run) :: Fills(env, f, m, o, r, run, n))
  }

  /** The metric may count c at the g-th rendering. */
  ghost predicate MayCount(env: Env, rk: ResolverKind, f: Config, labels: seq<Label>, resolver: ResolverKind,
                           m: Metric, o: Object, g: nat, c: nat) {
    g > 0 && exists d :: Legal(env, rk, ConfigAt(f, labels, resolver, g), m, o, d)
                         && c == MetricCount(env, ConfigAt(f, labels, resolver, g), m, o, d)
  }

  lemma FillsLess(env: Env, f: Config, m: Metric, o: Object, r: Resolution, run: seq<string>, n: nat, k: nat)
    requires Fills(env, f, m, o, r, run, n) && 0 < k <= n
    ensures Fills(env, f, m, o, r, run, k)
  {
    hide RowWritable;
  }

  /** The count of a steady metric. */
  lemma SteadyCounts(env: Env, rk: ResolverKind, f: Config, labels: seq<Label>, resolver: ResolverKind, m: Metric,
                     o: Object, g: nat, d: Draw)
    requires g > 0 && FixedMetric(env, rk, f, labels, m, o) && SteadyCount(env, rk, f, labels, m, o)
    requires ResolverOf(ConfigAt(f, labels, resolver, g), m) == Some(rk)
    requires Legal(env, rk, ConfigAt(f, labels, resolver, g), m, o, d)
    ensures var n := RowsAt(env, rk, f, labels, m, o, 1);
            var fills := exists r, run :: MayHave(env, rk, m, o, r, run) && Fills(env, f, m, o, r, run, n);
            MetricCount(env, ConfigAt(f, labels, resolver, g), m, o, d) == if fills then n else 0
  {
    hide Legal, FixedLabels, NamesFixed, RowsAt, MetricCount, NoLists, MayHave, ConfigAt, Fills;
    var n := RowsAt(env, rk, f, labels, m, o, 1);
    CountIs(env, rk, f, labels, resolver, m, o, g, d);
    LegalValue(env, rk, ConfigAt(f, labels, resolver, g), m, o, d);
    if NoLists(env, rk, labels, o) {
      SameRowsWithoutLists(env, rk, f, labels, resolver, m, o, 1, g);
    } else {
      RowsGrowWithLists(env, rk, f, labels, resolver, m, o, g);
      if Fills(env, f, m, o, d.r, d.run, RowsAt(env, rk, f, labels, m, o, g)) {
        FillsLess(env, f, m, o, d.r, d.run, RowsAt(env, rk, f, labels, m, o, g), n);
      }
    }
  }

  /** One filling and one not: two first renderings that count differently. */
  lemma MixedCounts(env: Env, rk: ResolverKind, f: Config, labels: seq<Label>, resolver: ResolverKind, m: Metric,
                    o: Object, r: Resolution, run: seq<string>, r': Resolution, run': seq<string>)
      returns (d: Draw, e: Draw)
    requires FixedMetric(env, rk, f, labels, m, o) && ResolverOf(ConfigAt(f, labels, resolver, 1), m) == Some(rk)
    requires MayHave(env, rk, m, o, r, run) && Fills(env, f, m, o, r, run, RowsAt(env, rk, f, labels, m, o, 1))
    requires MayHave(env, rk, m, o, r', run') && !Fills(env, f, m, o, r', run', RowsAt(env, rk, f, labels, m, o, 1))
    ensures var f1 := ConfigAt(f, labels, resolver, 1);
            && Legal(env, rk, f1, m, o, d) && Legal(env, rk, f1, m, o, e)
            && MetricCount(env, f1, m, o, d) > 0 && MetricCount(env, f1, m, o, e) == 0
  {
    hide Legal, FixedLabels, NamesFixed, RowsAt, MetricCount, MayHave, ConfigAt;
    d := DrawWith(env, rk, ConfigAt(f, labels, resolver, 1), m, o, r, run);
    e := DrawWith(env, rk, ConfigAt(f, labels, resolver, 1), m, o, r', run');
    CountIs(env, rk, f, labels, resolver, m, o, 1, d);
    CountIs(env, rk, f, labels, resolver, m, o, 1, e);
  }

  /** Late enough and with the same value, a metric counts as before, or nothing, or
      more than any bound set beforehand; with a list among the store's labels it
      does not count as before, unless that is nothing. */
  ghost predicate Late(early: nat, late: nat, h: nat, lists: bool) {
    late >= h || (late <= early && (lists && early > 0 ==> late < early))
  }

  lemma LateCount(env: Env, rk: ResolverKind, f: Config, labels: seq<Label>, resolver: ResolverKind, m: Metric,
                  o: Object, d: Draw, h: nat) returns (e: Draw)
    requires env.Valid() && FixedMetric(env, rk, f, labels, m, o) && h > |d.run|
    requires ResolverOf(ConfigAt(f, labels, resolver, 1), m) == Some(rk)
    requires Legal(env, rk, ConfigAt(f, labels, resolver, 1), m, o, d)
    ensures Legal(env, rk, ConfigAt(f, labels, resolver, h), m, o, e)
    ensures Late(MetricCount(env, ConfigAt(f, labels, resolver, 1), m, o, d),
                 MetricCount(env, ConfigAt(f, labels, resolver, h), m, o, e), h, !NoLists(env, rk, labels, o))
  {
    var f1, fh := ConfigAt(f, labels, resolver, 1), ConfigAt(f, labels, resolver, h);
    hide Legal, FixedLabels, NamesFixed, RowsAt, MetricCount, NoLists, Env.Valid;
    LegalValue(env, rk, f1, m, o, d);
    e := DrawWith(env, rk, fh, m, o, d.r, d.run);
    CountIs(env, rk, f, labels, resolver, m, o, 1, d);
    CountIs(env, rk, f, labels, resolver, m, o, h, e);
    if NoLists(env, rk, labels, o) {
      SameRowsWithoutLists(env, rk, f, labels, resolver, m, o, 1, h);
    } else {
      RowsGrowWithLists(env, rk, f, labels, resolver, m, o, h);
      if m.value !in d.r {
        PastTheLast(env, f, m, o, d.r, d.run, RowsAt(env, rk, f, labels, m, o, h));
      }
    }
  }

  /** A list of values does not fill more rows than it has values. */
  lemma PastTheLast(env: Env, f: Config, m: Metric, o: Object, r: Resolution, run: seq<string>, n: nat)
    requires env.Valid() && m.value !in r && n > |run|
    ensures !Fills(env, f, m, o, r, run, n)
  {
    assert !RowWritable(ValueContext(env, f, m, o, r), run, |run|);
  }

  /** All renderings of a metric, at all generations, count the same exactly if its
      count is steady. */
  lemma MetricRepeatsIff(env: Env, rk: ResolverKind, f: Config, labels: seq<Label>, resolver: ResolverKind, m: Metric,
                         o: Object)
    requires env.Valid() && FixedMetric(env, rk, f, labels, m, o)
    requires ResolverOf(ConfigAt(f, labels, resolver, 1), m) == Some(rk)
    ensures (forall g, c, h, c' | MayCount(env, rk, f, labels, resolver, m, o, g, c)
                                  && MayCount(env, rk, f, labels, resolver, m, o, h, c') :: c == c')
       <==> SteadyCount(env, rk, f, labels, m, o)
  {
    hide Legal, MetricCount, FixedMetric, SteadyCount;
    if SteadyCount(env, rk, f, labels, m, o) {
      forall g, c, h, c' | MayCount(env, rk, f, labels, resolver, m, o, g, c)
                           && MayCount(env, rk, f, labels, resolver, m, o, h, c')
        ensures c == c'
      {
        var d :| Legal(env, rk, ConfigAt(f, labels, resolver, g), m, o, d)
                 && c == MetricCount(env, ConfigAt(f, labels, resolver, g), m, o, d);
        var e :| Legal(env, rk, ConfigAt(f, labels, resolver, h), m, o, e)
                 && c' == MetricCount(env, ConfigAt(f, labels, resolver, h), m, o, e);
        SteadyCounts(env, rk, f, labels, resolver, m, o, g, d);
        SteadyCounts(env, rk, f, labels, resolver, m, o, h, e);
      }
    } else {
      var d, h, e := UnsteadyCounts(env, rk, f, labels, resolver, m, o);
      assert MayCount(env, rk, f, labels, resolver, m, o, 1,
                      MetricCount(env, ConfigAt(f, labels, resolver, 1), m, o, d));
      assert MayCount(env, rk, f, labels, resolver, m, o, h,
                      MetricCount(env, ConfigAt(f, labels, resolver, h), m, o, e));
    }
  }

  /** So a single value may change with time, as one computed from the clock does:
      if it is always a number and no label of the store holds a list, the count is
      the same every time. */
  lemma NumbersSteady(env: Env, rk: ResolverKind, f: Config, labels: seq<Label>, m: Metric, o: Object)
    requires rk != Unstructured && NoLists(env, rk, labels, o)
    requires forall i :: TextsAt(env, i, m.value, o.content, m.value) != {}
    requires forall i, t | t in TextsAt(env, i, m.value, o.content, m.value) :: Writable(env, t, KindOf(f.name))
    ensures SteadyCount(env, rk, f, labels, m, o)
  {
    hide TextsAt, Writable, RowsAt, NoLists, Env.MayResolve;
    var n := RowsAt(env, rk, f, labels, m, o, 1);
    forall r, run | MayHave(env, rk, m, o, r, run) ensures Fills(env, f, m, o, r, run, n) <==> n > 0 {
      var i := TextOf(env, rk, m.value, o.content, r);
      assert m.value in r && run == [];
    }
  }

  /** A metric whose count is not steady counts something at its first rendering
      that it does not at another. */
  lemma UnsteadyCounts(env: Env, rk: ResolverKind, f: Config, labels: seq<Label>, resolver: ResolverKind, m: Metric,
                       o: Object) returns (d: Draw, h: nat, e: Draw)
    requires env.Valid() && FixedMetric(env, rk, f, labels, m, o) && !SteadyCount(env, rk, f, labels, m, o)
    requires ResolverOf(ConfigAt(f, labels, resolver, 1), m) == Some(rk)
    ensures h > 0 && Legal(env, rk, ConfigAt(f, labels, resolver, 1), m, o, d)
    ensures Legal(env, rk, ConfigAt(f, labels, resolver, h), m, o, e)
    ensures MetricCount(env, ConfigAt(f, labels, resolver, 1), m, o, d)
         != MetricCount(env, ConfigAt(f, labels, resolver, h), m, o, e)
  {
    hide Legal, MetricCount, FixedLabels, NamesFixed, RowsAt, Fills, MayHave, NoLists, ConfigAt, Env.Valid;
    var n := RowsAt(env, rk, f, labels, m, o, 1);
    var r, run :| MayHave(env, rk, m, o, r, run) && Fills(env, f, m, o, r, run, n);
    if r', run' :| MayHave(env, rk, m, o, r', run') && !Fills(env, f, m, o, r', run', n) {
      h := 1;
      d, e := MixedCounts(env, rk, f, labels, resolver, m, o, r, run, r', run');
    } else {
      d := FillingDraw(env, rk, f, labels, resolver, m, o, r, run);
      h := MetricCount(env, ConfigAt(f, labels, resolver, 1), m, o, d) + |d.run| + 1;
      e := LateCount(env, rk, f, labels, resolver, m, o, d, h);
    }
  }

  lemma FillingDraw(env: Env, rk: ResolverKind, f: Config, labels: seq<Label>, resolver: ResolverKind, m: Metric,
                    o: Object, r: Resolution, run: seq<string>) returns (d: Draw)
    requires FixedMetric(env, rk, f, labels, m, o) && ResolverOf(ConfigAt(f, labels, resolver, 1), m) == Some(rk)
    requires MayHave(env, rk, m, o, r, run) && Fills(env, f, m, o, r, run, RowsAt(env, rk, f, labels, m, o, 1))
    ensures Legal(env, rk, ConfigAt(f, labels, resolver, 1), m, o, d) && d.run == run
    ensures MetricCount(env, ConfigAt(f, labels, resolver, 1), m, o, d) > 0
  {
    hide Legal, FixedLabels, NamesFixed, RowsAt, MetricCount, MayHave, ConfigAt;
    d := DrawWith(env, rk, ConfigAt(f, labels, resolver, 1), m, o, r, run);
    CountIs(env, rk, f, labels, resolver, m, o, 1, d);
  }

  // ---- a family ---------------------------------------------------------------------------------

  ghost predicate FixedFamily(env: Env, f: Config, labels: seq<Label>, resolver: ResolverKind, o: Object) {
    forall j | 0 <= j < |f.metrics| && ResolverOf(ConfigAt(f, labels, resolver, 1), f.metrics[j]).Some? ::
      FixedMetric(env, ResolverOf(ConfigAt(f, labels, resolver, 1), f.metrics[j]).value, f, labels, f.metrics[j], o)
  }

  /** Every metric of the family has a steady count. */
  ghost predicate SteadyFamily(env: Env, f: Config, labels: seq<Label>, resolver: ResolverKind, o: Object) {
    forall j | 0 <= j < |f.metrics| && ResolverOf(ConfigAt(f, labels, resolver, 1), f.metrics[j]).Some? ::
      SteadyCount(env, ResolverOf(ConfigAt(f, labels, resolver, 1), f.metrics[j]).value, f, labels, f.metrics[j], o)
  }

  lemma ResolverKept(f: Config, labels: seq<Label>, resolver: ResolverKind, m: Metric, g: nat)
    requires g > 0
    ensures ResolverOf(ConfigAt(f, labels, resolver, g), m) == ResolverOf(ConfigAt(f, labels, resolver, 1), m)
    ensures ConfigAt(f, labels, resolver, g).metrics == f.metrics
  {
  }

  lemma {:induction false} SteadyFamilyCounts(env: Env, f: Config, labels: seq<Label>, resolver: ResolverKind,
                                              o: Object, g: nat, ds: seq<Draw>, h: nat, es: seq<Draw>, n: nat)
    requires g > 0 && h > 0 && n <= |f.metrics|
    requires FixedFamily(env, f, labels, resolver, o) && SteadyFamily(env, f, labels, resolver, o)
    requires LegalDraws(env, ConfigAt(f, labels, resolver, g), o, ds, |f.metrics|)
    requires LegalDraws(env, ConfigAt(f, labels, resolver, h), o, es, |f.metrics|)
    ensures FamilyCount(env, ConfigAt(f, labels, resolver, g), o, ds, n)
         == FamilyCount(env, ConfigAt(f, labels, resolver, h), o, es, n)
  {
    hide Legal, MetricCount, FixedMetric, SteadyCount;
    if n > 0 {
      SteadyFamilyCounts(env, f, labels, resolver, o, g, ds, h, es, n - 1);
      var m := f.metrics[n - 1];
      ResolverKept(f, labels, resolver, m, g);
      ResolverKept(f, labels, resolver, m, h);
      hide ConfigAt;
      match ResolverOf(ConfigAt(f, labels, resolver, 1), m)
      case None =>
        NothingWritten(env, ConfigAt(f, labels, resolver, g), m, o);
        NothingWritten(env, ConfigAt(f, labels, resolver, h), m, o);
      case Some(rk) =>
        SteadyCounts(env, rk, f, labels, resolver, m, o, g, ds[n - 1]);
        SteadyCounts(env, rk, f, labels, resolver, m, o, h, es[n - 1]);
    }
  }

  lemma {:induction false} SomeDraws(env: Env, f: Config, o: Object, n: nat) returns (ds: seq<Draw>)
    requires n <= |f.metrics|
    ensures |ds| == |f.metrics| && LegalDraws(env, f, o, ds, n)
  {
    hide Legal;
    if n == 0 {
      ds := seq(|f.metrics|, i => NO_DRAW);
    } else {
      ds := SomeDraws(env, f, o, n - 1);
      if ResolverOf(f, f.metrics[n - 1]).Some? {
        var d := SomeDraw(env, ResolverOf(f, f.metrics[n - 1]).value, f, f.metrics[n - 1], o);
        ds := ds[n - 1 := d];
      }
    }
  }

  /** Another draw for one metric changes the family's count by what it changes the
      metric's. */
  lemma {:induction false} OneDrawCounts(env: Env, f: Config, o: Object, ds: seq<Draw>, j: nat, d: Draw, n: nat)
    requires j < n <= |ds| == |f.metrics|
    ensures FamilyCount(env, f, o, ds[j := d], n)
         == FamilyCount(env, f, o, ds, n) - MetricCount(env, f, f.metrics[j], o, ds[j])
            + MetricCount(env, f, f.metrics[j], o, d)
  {
    hide MetricCount;
    if j < n - 1 {
      OneDrawCounts(env, f, o, ds, j, d, n - 1);
    } else {
      EarlierDraws(env, f, o, ds, d, j, j);
    }
  }

  ghost predicate LateAll(env: Env, f: Config, labels: seq<Label>, resolver: ResolverKind, o: Object,
                          ds: seq<Draw>, h: nat, es: seq<Draw>, n: nat)
    requires n <= |ds| == |es| == |f.metrics|
  {
    forall j | 0 <= j < n ::
      Late(MetricCount(env, ConfigAt(f, labels, resolver, 1), f.metrics[j], o, ds[j]),
           MetricCount(env, ConfigAt(f, labels, resolver, h), f.metrics[j], o, es[j]), h,
           ListedFor(env, f, labels, resolver, f.metrics[j], o))
  }

  /** Some label of the store holds a list, as the metric resolves it. */
  ghost predicate ListedFor(env: Env, f: Config, labels: seq<Label>, resolver: ResolverKind, m: Metric, o: Object) {
    var rk := ResolverOf(ConfigAt(f, labels, resolver, 1), m);
    rk.Some? && !NoLists(env, rk.value, labels, o)
  }

  lemma {:induction false} LateDraws(env: Env, f: Config, labels: seq<Label>, resolver: ResolverKind, o: Object,
                                     ds: seq<Draw>, h: nat, n: nat) returns (es: seq<Draw>)
    requires env.Valid() && h > 0 && FixedFamily(env, f, labels, resolver, o) && n <= |f.metrics|
    requires LegalDraws(env, ConfigAt(f, labels, resolver, 1), o, ds, |f.metrics|)
    requires forall j | 0 <= j < |ds| :: h > |ds[j].run|
    ensures |es| == |f.metrics| && LegalDraws(env, ConfigAt(f, labels, resolver, h), o, es, n)
    ensures LateAll(env, f, labels, resolver, o, ds, h, es, n)
  {
    hide Legal, MetricCount, FixedMetric, NoLists, Env.Valid;
    if n == 0 {
      es := seq(|f.metrics|, i => NO_DRAW);
    } else {
      es := LateDraws(env, f, labels, resolver, o, ds, h, n - 1);
      var m := f.metrics[n - 1];
      ResolverKept(f, labels, resolver, m, h);
      hide ConfigAt;
      match ResolverOf(ConfigAt(f, labels, resolver, 1), m)
      case None =>
        NothingWritten(env, ConfigAt(f, labels, resolver, 1), m, o);
        NothingWritten(env, ConfigAt(f, labels, resolver, h), m, o);
      case Some(rk) =>
        var e := LateCount(env, rk, f, labels, resolver, m, o, ds[n - 1], h);
        es := es[n - 1 := e];
    }
  }

  /** So the family's count is past the bound or not above the early one; below it
      if a metric that counted something has a list among its store labels. */
  lemma {:induction false} LateFamilyCount(env: Env, f: Config, labels: seq<Label>, resolver: ResolverKind, o: Object,
                                           ds: seq<Draw>, h: nat, es: seq<Draw>, n: nat)
    requires n <= |ds| == |es| == |f.metrics| && LateAll(env, f, labels, resolver, o, ds, h, es, n)
    ensures var early := FamilyCount(env, ConfigAt(f, labels, resolver, 1), o, ds, n);
            var late := FamilyCount(env, ConfigAt(f, labels, resolver, h), o, es, n);
            var listed := exists j :: 0 <= j < n && ListedFor(env, f, labels, resolver, f.metrics[j], o)
                            && MetricCount(env, ConfigAt(f, labels, resolver, 1), f.metrics[j], o, ds[j]) > 0;
            late >= h || (late <= early && (listed ==> late < early))
  {
    hide MetricCount, ListedFor;
    if n > 0 {
      LateFamilyCount(env, f, labels, resolver, o, ds, h, es, n - 1);
    }
  }

  function RunTotal(ds: seq<Draw>): (n: nat)
    ensures forall j | 0 <= j < |ds| :: n >= |ds[j].run|
  {
    if ds == [] then 0 else RunTotal(ds[..|ds| - 1]) + |ds[|ds| - 1].run|
  }

  /** A family one of whose metrics is not steady: two renderings that count
      differently. */
  lemma UnsteadyFamily(env: Env, f: Config, labels: seq<Label>, resolver: ResolverKind, o: Object)
      returns (ds: seq<Draw>, h: nat, es: seq<Draw>)
    requires env.Valid() && FixedFamily(env, f, labels, resolver, o) && !SteadyFamily(env, f, labels, resolver, o)
    ensures h > 0 && LegalDraws(env, ConfigAt(f, labels, resolver, 1), o, ds, |f.metrics|)
    ensures LegalDraws(env, ConfigAt(f, labels, resolver, h), o, es, |f.metrics|)
    ensures FamilyCount(env, ConfigAt(f, labels, resolver, 1), o, ds, |f.metrics|)
         != FamilyCount(env, ConfigAt(f, labels, resolver, h), o, es, |f.metrics|)
  {
    hide Legal, MetricCount, Env.Valid, NoLists, FixedLabels, NamesFixed, RowsAt, Fills, MayHave;
    var f1 := ConfigAt(f, labels, resolver, 1);
    var j :| 0 <= j < |f.metrics| && ResolverOf(f1, f.metrics[j]).Some?
             && !SteadyCount(env, ResolverOf(f1, f.metrics[j]).value, f, labels, f.metrics[j], o);
    var m, rk := f.metrics[j], ResolverOf(f1, f.metrics[j]).value;
    var n := RowsAt(env, rk, f, labels, m, o, 1);
    var r, run :| MayHave(env, rk, m, o, r, run) && Fills(env, f, m, o, r, run, n);
    ds := SomeDraws(env, f1, o, |f.metrics|);
    if r', run' :| MayHave(env, rk, m, o, r', run') && !Fills(env, f, m, o, r', run', n) {
      var d, e := MixedCounts(env, rk, f, labels, resolver, m, o, r, run, r', run');
      OneDrawCounts(env, f1, o, ds, j, d, |f.metrics|);
      OneDrawCounts(env, f1, o, ds, j, e, |f.metrics|);
      ds, h, es := ds[j := d], 1, ds[j := e];
    } else {
      var d := FillingDraw(env, rk, f, labels, resolver, m, o, r, run);
      ds := ds[j := d];
      h := FamilyCount(env, f1, o, ds, |f.metrics|) + RunTotal(ds) + 1;
      es := LateDraws(env, f, labels, resolver, o, ds, h, |f.metrics|);
      LateFamilyCount(env, f, labels, resolver, o, ds, h, es, |f.metrics|);
      assert ListedFor(env, f, labels, resolver, f.metrics[j], o);
    }
  }

  /** The family may be rendered for the object with count c at some generation. */
  ghost predicate FamilyMayCount(env: Env, f: Config, labels: seq<Label>, resolver: ResolverKind, o: Object, c: nat) {
    exists g: nat, t :: g > 0 && Outcome(env, ConfigAt(f, labels, resolver, g), o, t, c)
  }

  /** All renderings of a family for an object count the same exactly if each of its
      metrics has a steady count. */
  lemma FamilyRepeatsIff(env: Env, f: Config, labels: seq<Label>, resolver: ResolverKind, o: Object)
    requires env.Valid() && FixedFamily(env, f, labels, resolver, o)
    ensures (forall c, c' | FamilyMayCount(env, f, labels, resolver, o, c)
                            && FamilyMayCount(env, f, labels, resolver, o, c') :: c == c')
       <==> SteadyFamily(env, f, labels, resolver, o)
  {
    hide Legal, FamilyCount, FamilyText, FixedFamily, SteadyFamily, Env.Valid;
    if SteadyFamily(env, f, labels, resolver, o) {
      forall c, c' | FamilyMayCount(env, f, labels, resolver, o, c) && FamilyMayCount(env, f, labels, resolver, o, c')
        ensures c == c'
      {
        var g: nat, t :| g > 0 && Outcome(env, ConfigAt(f, labels, resolver, g), o, t, c);
        var h: nat, t' :| h > 0 && Outcome(env, ConfigAt(f, labels, resolver, h), o, t', c');
        var fg, fh := ConfigAt(f, labels, resolver, g), ConfigAt(f, labels, resolver, h);
        var ds :| LegalDraws(env, fg, o, ds, |f.metrics|) && IsOutcome(env, fg, o, ds, t, c);
        var es :| LegalDraws(env, fh, o, es, |f.metrics|) && IsOutcome(env, fh, o, es, t', c');
        SteadyFamilyCounts(env, f, labels, resolver, o, g, ds, h, es, |f.metrics|);
      }
    } else {
      var ds, h, es := UnsteadyFamily(env, f, labels, resolver, o);
      DrawsOutcome(env, f, labels, resolver, o, 1, ds);
      DrawsOutcome(env, f, labels, resolver, o, h, es);
    }
  }

  lemma DrawsOutcome(env: Env, f: Config, labels: seq<Label>, resolver: ResolverKind, o: Object, g: nat, ds: seq<Draw>)
    requires g > 0 && LegalDraws(env, ConfigAt(f, labels, resolver, g), o, ds, |f.metrics|)
    ensures FamilyMayCount(env, f, labels, resolver, o,
                           FamilyCount(env, ConfigAt(f, labels, resolver, g), o, ds, |f.metrics|))
  {
    hide Legal, FamilyText, FamilyCount;
    var fg := ConfigAt(f, labels, resolver, g);
    var t, c := FamilyText(env, fg, o, ds, |f.metrics|), FamilyCount(env, fg, o, ds, |f.metrics|);
    assert IsOutcome(env, fg, o, ds, t, c);
    assert Outcome(env, fg, o, t, c);
  }
}
