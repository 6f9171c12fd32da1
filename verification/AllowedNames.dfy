/** When every name in what a family prints is one the format allows, said of the
    configuration: the sanitizer does not rule out a leading digit. */
module AllowedNames {
  import opened Basics
  import opened Resources
  import opened Resolvers
  import opened Exposition
  import opened LineReading
  import opened Labels
  import opened Expansion
  import opened Samples
  import opened Family
  import opened LabelKeys
  import opened FamilyFacts
  import opened Determinism
  import opened MetricValues
  import opened Store
  import opened Generations
  import opened Counts

  // ---- one label ---------------------------------------------------------------------------

  /** At some instant entry k of the expression becomes a static label. */
  ghost predicate MayShowEntry(env: Env, rk: ResolverKind, lb: Label, o: Object, k: string) {
    && rk != Unstructured && !ListIndexed(k)
    && exists i :: TextsAt(env, i, lb.value, o.content, lb.value) == {} && TextsAt(env, i, lb.value, o.content, k) != {}
  }

  /** The label's own name and the names of all its entries are allowed. */
  ghost predicate LabelAllowed(env: Env, rk: ResolverKind, lb: Label, o: Object) {
    && LabelName(env.sanitize(lb.name))
    && forall k | MayShowEntry(env, rk, lb, o, k) :: LabelName(EntryKey(env, lb, k))
  }

  predicate AllNames(keys: set<string>) {
    forall k | k in keys :: LabelName(k)
  }

  lemma AllowedGives(env: Env, rk: ResolverKind, lb: Label, o: Object, r: Resolution)
    requires LabelAllowed(env, rk, lb, o) && env.MayResolve(rk, lb.value, o.content, r)
    ensures AllNames(GivenBy(env, lb, r))
  {
    hide TextsAt, LabelName, ListIndexed, EntryKey;
    if rk != Unstructured && !IsScalar(lb, r) {
      hide Env.MayResolve;
      var i := TextOf(env, rk, lb.value, o.content, r);
      forall k | k in r && !ListIndexed(k) ensures LabelName(EntryKey(env, lb, k)) {
        assert TextsAt(env, i, lb.value, o.content, k) != {};
        assert MayShowEntry(env, rk, lb, o, k);
      }
    }
  }

  /** With fixed names, what one resolution gives tells it. */
  lemma GivesAllowed(env: Env, rk: ResolverKind, lb: Label, o: Object, r: Resolution)
    requires NamesFixed(env, rk, lb.value, o.content) && env.MayResolve(rk, lb.value, o.content, r)
    requires AllNames(GivenBy(env, lb, r))
    ensures LabelAllowed(env, rk, lb, o)
  {
    hide TextsAt, LabelName, ListIndexed, EntryKey, Env.MayResolve;
    forall k | MayShowEntry(env, rk, lb, o, k) ensures LabelName(EntryKey(env, lb, k)) {
      var i := TextOf(env, rk, lb.value, o.content, r);
      assert k in r && lb.value !in r;
      assert EntryKey(env, lb, k) in EntryKeys(env, lb, r, r.Keys);
    }
  }

  // ---- one metric --------------------------------------------------------------------------

  /** What a reader needs of the names in a metric. */
  ghost predicate MetricAllowed(env: Env, rk: ResolverKind, f: Config, labels: seq<Label>, m: Metric, o: Object) {
    MetricName(PREFIX + f.name) && forall lb | lb in m.labels + f.labels + labels :: LabelAllowed(env, rk, lb, o)
  }

  lemma SampleAllowed(c: Context, row: Row, value: string)
    requires c.env.parse(value).Some? && |row.keys| == |row.values|
    ensures AllowedSample(RowSample(c, row, value)) <==> MetricName(PREFIX + c.name) && AllNames(KeySet(row.keys))
  {
    hide MetricName, LabelName;
    var keys := row.keys + AutoKeys();
    AutoNames();
    if AllowedSample(RowSample(c, row, value)) {
      forall k | k in KeySet(row.keys) ensures LabelName(k) {
        var i :| 0 <= i < |row.keys| && row.keys[i] == k;
        assert keys[i] == k;
      }
    }
    if AllNames(KeySet(row.keys)) {
      forall i | 0 <= i < |keys| ensures LabelName(keys[i]) {
        assert if i < |row.keys| then keys[i] in KeySet(row.keys) else keys[i] == AutoKeys()[i - |row.keys|];
      }
    }
  }

  lemma AutoNames()
    ensures forall i | 0 <= i < |AutoKeys()| :: LabelName(AutoKeys()[i])
  {
  }

  /** The samples of a metric are allowed if there are none or the names are. */
  lemma SamplesAllowed(env: Env, rk: ResolverKind, f: Config, m: Metric, o: Object, d: Draw)
    requires ResolverOf(f, m) == Some(rk) && Legal(env, rk, f, m, o, d)
    ensures |d.rs| == |LabelsOf(f, m)|
    ensures AllowedSamples(MetricSamples(env, f, m, o, d))
       <==> MetricCount(env, f, m, o, d) == 0
            || (MetricName(PREFIX + f.name) && AllNames(Given(env, LabelsOf(f, m), d.rs)))
  {
    RowsWellFormed(env, rk, f, m, o, d);
    RowKeysAre(env, rk, f, m, o, d);
    hide Legal, RowsOf, XsOf, MetricName, AllNames, Given, KeySet, AllowedSample, RowSample;
    if Written(env, f, m, o, d) {
      var c, rows, xs := ContextOf(env, f, m, o, d), RowsOf(env, f, m, d), XsOf(env, f, m, d);
      var samples := RowSamples(c, rows, xs);
      forall i | 0 <= i < |rows|
        ensures AllowedSample(samples[i])
           <==> MetricName(PREFIX + f.name) && AllNames(Given(env, LabelsOf(f, m), d.rs))
      {
        assert RowWritable(c, xs, i);
        SampleAllowed(c, rows[i], ValueFor(xs, c.value, i));
      }
      if rows != [] && AllowedSamples(samples) {
        assert AllowedSample(samples[0]);
      }
    }
  }

  lemma AllGiven(env: Env, labels: seq<Label>, rs: seq<Resolution>)
    requires |rs| == |labels|
    ensures AllNames(Given(env, labels, rs))
       <==> forall i | 0 <= i < |labels| :: AllNames(GivenBy(env, labels[i], rs[i]))
  {
    hide GivenBy, LabelName;
    if AllNames(Given(env, labels, rs)) {
      forall i, k | 0 <= i < |labels| && k in GivenBy(env, labels[i], rs[i]) ensures LabelName(k) {
        assert k in Given(env, labels, rs);
      }
    }
  }

  lemma SameLabels(f: Config, labels: seq<Label>, resolver: ResolverKind, m: Metric, g: nat)
    requires g > 0
    ensures forall lb :: lb in LabelsOf(ConfigAt(f, labels, resolver, g), m) <==> lb in m.labels + f.labels + labels
  {
    LabelsSplit(f, labels, resolver, m, g);
    forall lb ensures lb in Copies(labels, g) <==> lb in labels { InCopies(labels, g, lb); }
  }

  /** Allowed names give allowed samples, at every rendering. */
  lemma MetricAllowedReads(env: Env, rk: ResolverKind, f: Config, labels: seq<Label>, resolver: ResolverKind,
                           m: Metric, o: Object, g: nat, d: Draw)
    requires g > 0 && ResolverOf(ConfigAt(f, labels, resolver, g), m) == Some(rk)
    requires Legal(env, rk, ConfigAt(f, labels, resolver, g), m, o, d) && MetricAllowed(env, rk, f, labels, m, o)
    ensures AllowedSamples(MetricSamples(env, ConfigAt(f, labels, resolver, g), m, o, d))
  {
    var fg := ConfigAt(f, labels, resolver, g);
    var all := LabelsOf(fg, m);
    LegalCounts(env, rk, fg, m, o, d);
    SameLabels(f, labels, resolver, m, g);
    LegalResolves(env, rk, fg, m, o, d);
    SamplesAllowed(env, rk, fg, m, o, d);
    hide Legal, MetricName, LabelAllowed, MetricSamples, MetricCount, AllNames, GivenBy, Given, AllowedSamples;
    forall i | 0 <= i < |all| ensures AllNames(GivenBy(env, all[i], d.rs[i])) {
      assert all[i] in all;
      AllowedGives(env, rk, all[i], o, d.rs[i]);
    }
    AllGiven(env, all, d.rs);
  }

  lemma LegalResolves(env: Env, rk: ResolverKind, f: Config, m: Metric, o: Object, d: Draw)
    requires Legal(env, rk, f, m, o, d)
    ensures AllResolve(env, rk, LabelsOf(f, m), o, d.rs)
  {
  }

  /** And with fixed names, a rendering that counts something has no other. */
  lemma ReadsMetricAllowed(env: Env, rk: ResolverKind, f: Config, labels: seq<Label>, resolver: ResolverKind,
                           m: Metric, o: Object, g: nat, d: Draw)
    requires g > 0 && ResolverOf(ConfigAt(f, labels, resolver, g), m) == Some(rk)
    requires FixedLabels(env, rk, f, labels, m, o) && Legal(env, rk, ConfigAt(f, labels, resolver, g), m, o, d)
    requires MetricCount(env, ConfigAt(f, labels, resolver, g), m, o, d) > 0
    requires AllowedSamples(MetricSamples(env, ConfigAt(f, labels, resolver, g), m, o, d))
    ensures MetricAllowed(env, rk, f, labels, m, o)
  {
    var fg := ConfigAt(f, labels, resolver, g);
    var all := LabelsOf(fg, m);
    SameLabels(f, labels, resolver, m, g);
    LegalResolves(env, rk, fg, m, o, d);
    SamplesAllowed(env, rk, fg, m, o, d);
    AllGiven(env, all, d.rs);
    hide Legal, MetricName, LabelAllowed, MetricSamples, MetricCount, AllNames, GivenBy, Given, AllowedSamples,
        NamesFixed;
    forall lb | lb in m.labels + f.labels + labels ensures LabelAllowed(env, rk, lb, o) {
      assert lb in all;
      var i :| 0 <= i < |all| && all[i] == lb;
      GivesAllowed(env, rk, lb, o, d.rs[i]);
    }
  }

  // ---- a family ------------------------------------------------------------------------------

  /** The names of every metric are allowed. */
  ghost predicate FamilyAllowed(env: Env, f: Config, labels: seq<Label>, resolver: ResolverKind, o: Object) {
    forall j | 0 <= j < |f.metrics| && ResolverOf(ConfigAt(f, labels, resolver, 1), f.metrics[j]).Some? ::
      MetricAllowed(env, ResolverOf(ConfigAt(f, labels, resolver, 1), f.metrics[j]).value, f, labels, f.metrics[j], o)
  }

  lemma {:induction false} FamilyAllowedReads(env: Env, f: Config, labels: seq<Label>, resolver: ResolverKind,
                                              o: Object, g: nat, ds: seq<Draw>, n: nat)
    requires g > 0 && FamilyAllowed(env, f, labels, resolver, o) && n <= |f.metrics|
    requires LegalDraws(env, ConfigAt(f, labels, resolver, g), o, ds, |f.metrics|)
    ensures AllowedSamples(FamilySamples(env, ConfigAt(f, labels, resolver, g), o, ds, n))
  {
    hide Legal, MetricAllowed, MetricSamples, AllowedSample;
    if n > 0 {
      var fg, m, d := ConfigAt(f, labels, resolver, g), f.metrics[n - 1], ds[n - 1];
      FamilyAllowedReads(env, f, labels, resolver, o, g, ds, n - 1);
      ResolverKept(f, labels, resolver, m, g);
      hide ConfigAt;
      if ResolverOf(fg, m).Some? {
        MetricAllowedReads(env, ResolverOf(fg, m).value, f, labels, resolver, m, o, g, d);
      } else {
        NothingShown(env, fg, m, o, d);
      }
    }
  }

  lemma NothingShown(env: Env, f: Config, m: Metric, o: Object, d: Draw)
    requires ResolverOf(f, m) == None
    ensures MetricSamples(env, f, m, o, d) == []
  {
  }

  /** Some value of the metric fills its rows. */
  ghost predicate Countable(env: Env, rk: ResolverKind, f: Config, labels: seq<Label>, m: Metric, o: Object) {
    exists r, run :: MayHave(env, rk, m, o, r, run) && Fills(env, f, m, o, r, run, RowsAt(env, rk, f, labels, m, o, 1))
  }

  lemma CountsSomething(env: Env, rk: ResolverKind, f: Config, labels: seq<Label>, resolver: ResolverKind,
                        m: Metric, o: Object, g: nat, d: Draw)
    requires g > 0 && ResolverOf(ConfigAt(f, labels, resolver, g), m) == Some(rk)
    requires FixedMetric(env, rk, f, labels, m, o) && Legal(env, rk, ConfigAt(f, labels, resolver, g), m, o, d)
    requires MetricCount(env, ConfigAt(f, labels, resolver, g), m, o, d) > 0
    ensures Countable(env, rk, f, labels, m, o)
  {
    hide Legal, FixedLabels, NamesFixed, RowsAt, MetricCount, NoLists, MayHave, ConfigAt, Fills;
    CountIs(env, rk, f, labels, resolver, m, o, g, d);
    LegalValue(env, rk, ConfigAt(f, labels, resolver, g), m, o, d);
    if NoLists(env, rk, labels, o) {
      SameRowsWithoutLists(env, rk, f, labels, resolver, m, o, 1, g);
    } else {
      RowsGrowWithLists(env, rk, f, labels, resolver, m, o, g);
      FillsLess(env, f, m, o, d.r, d.run, RowsAt(env, rk, f, labels, m, o, g), RowsAt(env, rk, f, labels, m, o, 1));
    }
  }

  /** The names of every metric that can count something are allowed. */
  ghost predicate CountedAllowed(env: Env, f: Config, labels: seq<Label>, resolver: ResolverKind, o: Object) {
    forall j | 0 <= j < |f.metrics| && ResolverOf(ConfigAt(f, labels, resolver, 1), f.metrics[j]).Some? ::
      var rk := ResolverOf(ConfigAt(f, labels, resolver, 1), f.metrics[j]).value;
      Countable(env, rk, f, labels, f.metrics[j], o) ==> MetricAllowed(env, rk, f, labels, f.metrics[j], o)
  }

  /** The g-th rendering of the family for the object gives these samples. */
  ghost predicate MayGive(env: Env, f: Config, labels: seq<Label>, resolver: ResolverKind, o: Object, g: nat,
                          samples: seq<Sample>) {
    g > 0 && exists ds ::
      && LegalDraws(env, ConfigAt(f, labels, resolver, g), o, ds, |f.metrics|)
      && samples == FamilySamples(env, ConfigAt(f, labels, resolver, g), o, ds, |f.metrics|)
  }

  /** With fixed names: all renderings of the family for the object, at all
      generations, have allowed names only, exactly if the names of every metric
      that can count something are allowed. */
  lemma AllowedIff(env: Env, f: Config, labels: seq<Label>, resolver: ResolverKind, o: Object)
    requires FixedFamily(env, f, labels, resolver, o)
    ensures (forall g, samples | MayGive(env, f, labels, resolver, o, g, samples) :: AllowedSamples(samples))
       <==> CountedAllowed(env, f, labels, resolver, o)
  {
    hide FixedFamily, CountedAllowed, Legal, FamilySamples, AllowedSamples;
    if CountedAllowed(env, f, labels, resolver, o) {
      forall g, samples | MayGive(env, f, labels, resolver, o, g, samples) ensures AllowedSamples(samples) {
        var ds :| LegalDraws(env, ConfigAt(f, labels, resolver, g), o, ds, |f.metrics|)
                  && samples == FamilySamples(env, ConfigAt(f, labels, resolver, g), o, ds, |f.metrics|);
        CountedReads(env, f, labels, resolver, o, g, ds, |f.metrics|);
      }
    } else {
      var g, ds := NotAllowed(env, f, labels, resolver, o);
      assert MayGive(env, f, labels, resolver, o, g,
                     FamilySamples(env, ConfigAt(f, labels, resolver, g), o, ds, |f.metrics|));
    }
  }

  lemma {:induction false} CountedReads(env: Env, f: Config, labels: seq<Label>, resolver: ResolverKind,
                                        o: Object, g: nat, ds: seq<Draw>, n: nat)
    requires g > 0 && FixedFamily(env, f, labels, resolver, o) && CountedAllowed(env, f, labels, resolver, o)
    requires n <= |f.metrics| && LegalDraws(env, ConfigAt(f, labels, resolver, g), o, ds, |f.metrics|)
    ensures AllowedSamples(FamilySamples(env, ConfigAt(f, labels, resolver, g), o, ds, n))
  {
    hide Legal, MetricAllowed, MetricSamples, AllowedSample, Countable, FixedMetric, MetricCount, MetricName, AllNames;
    if n > 0 {
      var fg, m, d := ConfigAt(f, labels, resolver, g), f.metrics[n - 1], ds[n - 1];
      CountedReads(env, f, labels, resolver, o, g, ds, n - 1);
      ResolverKept(f, labels, resolver, m, g);
      hide ConfigAt;
      if ResolverOf(fg, m) == None {
        NothingShown(env, fg, m, o, d);
      } else {
        var rk := ResolverOf(fg, m).value;
        SamplesAllowed(env, rk, fg, m, o, d);
        if MetricCount(env, fg, m, o, d) > 0 {
          CountsSomething(env, rk, f, labels, resolver, m, o, g, d);
          MetricAllowedReads(env, rk, f, labels, resolver, m, o, g, d);
        }
      }
    }
  }

  /** A first rendering with a name that is not allowed. */
  lemma NotAllowed(env: Env, f: Config, labels: seq<Label>, resolver: ResolverKind, o: Object)
      returns (g: nat, ds: seq<Draw>)
    requires FixedFamily(env, f, labels, resolver, o) && !CountedAllowed(env, f, labels, resolver, o)
    ensures g == 1 && LegalDraws(env, ConfigAt(f, labels, resolver, g), o, ds, |f.metrics|)
    ensures !AllowedSamples(FamilySamples(env, ConfigAt(f, labels, resolver, g), o, ds, |f.metrics|))
  {
    hide Legal, MetricAllowed, MetricSamples, AllowedSamples, FixedLabels, NamesFixed, MetricCount, MayHave, Fills;
    hide RowsAt;
    g := 1;
    var f1 := ConfigAt(f, labels, resolver, 1);
    var j :| 0 <= j < |f.metrics| && ResolverOf(f1, f.metrics[j]).Some?
             && Countable(env, ResolverOf(f1, f.metrics[j]).value, f, labels, f.metrics[j], o)
             && !MetricAllowed(env, ResolverOf(f1, f.metrics[j]).value, f, labels, f.metrics[j], o);
    var m, rk := f.metrics[j], ResolverOf(f1, f.metrics[j]).value;
    var r, run :| MayHave(env, rk, m, o, r, run) && Fills(env, f, m, o, r, run, RowsAt(env, rk, f, labels, m, o, 1));
    var d := FillingDraw(env, rk, f, labels, resolver, m, o, r, run);
    ds := SomeDraws(env, f1, o, |f.metrics|);
    ds := ds[j := d];
    if AllowedSamples(FamilySamples(env, f1, o, ds, |f.metrics|)) {
      PartAllowed(env, f1, o, ds, j, |f.metrics|);
      ReadsMetricAllowed(env, rk, f, labels, resolver, m, o, 1, d);
      assert false;
    }
  }

  lemma {:induction false} PartAllowed(env: Env, f: Config, o: Object, ds: seq<Draw>, j: nat, n: nat)
    requires j < n <= |ds| == |f.metrics| && AllowedSamples(FamilySamples(env, f, o, ds, n))
    ensures AllowedSamples(MetricSamples(env, f, f.metrics[j], o, ds[j]))
  {
    hide MetricSamples, AllowedSamples;
    AllowedBoth(FamilySamples(env, f, o, ds, n - 1), MetricSamples(env, f, f.metrics[n - 1], o, ds[n - 1]));
    if j < n - 1 {
      PartAllowed(env, f, o, ds, j, n - 1);
    }
  }
}
