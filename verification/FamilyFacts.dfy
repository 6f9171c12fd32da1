/** What holds of every rendering of a family: the count is the number of lines,
    reading the text gives the samples back, and how many rows there are. */
module FamilyFacts {
  import opened Basics
  import opened Resources
  import opened Collect
  import opened Exposition
  import opened LineReading
  import opened LabelKeys
  import opened Labels
  import opened Expansion
  import opened Samples
  import opened Family

  // ---- label names come from the sanitizer ------------------------------------------------------

  ghost predicate AllSanitized(env: Env, keys: seq<string>) {
    forall i | 0 <= i < |keys| :: Sanitized(env, keys[i])
  }

  lemma RowKeysSanitized(env: Env, rk: ResolverKind, f: Config, m: Metric, o: Object, d: Draw)
    requires Legal(env, rk, f, m, o, d)
    ensures forall i | 0 <= i < |RowsOf(env, f, m, d)| :: AllSanitized(env, RowsOf(env, f, m, d)[i].keys)
  {
    hide Sanitized, Legal, Given, RowsOf;
    RowKeysAre(env, rk, f, m, o, d);
    GivenSanitized(env, LabelsOf(f, m), d.rs);
    var rows := RowsOf(env, f, m, d);
    forall i, j | 0 <= i < |rows| && 0 <= j < |rows[i].keys| ensures Sanitized(env, rows[i].keys[j]) {
      assert rows[i].keys[j] in KeySet(rows[i].keys);
    }
  }

  // ---- the count is the number of lines -------------------------------------------------------------

  lemma {:induction false} EscapeOneLine(s: string)
    ensures '\n' !in Escape(s)
  {
    if s != [] {
      EscapeOneLine(s[1..]);
    }
  }

  lemma {:induction false} LabelsOneLine(separator: string, keys: seq<string>, values: seq<string>)
    requires |keys| <= |values| && '\n' !in separator
    requires forall i | 0 <= i < |keys| :: '\n' !in keys[i]
    ensures '\n' !in LabelsFrom(separator, keys, values)
    decreases |keys|
  {
    hide Escape;
    if keys != [] {
      EscapeOneLine(values[0]);
      LabelsOneLine(",", keys[1..], values[1..]);
    }
  }

  lemma RowOneLine(c: Context, row: Row, value: string)
    requires c.env.Valid() && '\n' !in c.name
    requires |row.keys| == |row.values| && c.env.parse(value).Some?
    requires forall i | 0 <= i < |row.keys| :: '\n' !in row.keys[i]
    ensures SampleLines(RowText(c, row, value), 1)
  {
    hide Lines, LabelBlock;
    var block := LabelBlock(row.keys + AutoKeys(), row.values + AutoValues(c.obj));
    BlockOneLine(row.keys, row.values, c.obj);
    var line := PREFIX + c.name + block + " " + ValueText(c.env, value);
    assert RowText(c, row, value) == line + "\n";
    assert '\n' !in PREFIX && PREFIX[0] != '#';
    assert '\n' !in line && line[0] == PREFIX[0];
    OneLine(line);
  }

  lemma BlockOneLine(keys: seq<string>, values: seq<string>, o: Object)
    requires |keys| == |values| && forall i | 0 <= i < |keys| :: '\n' !in keys[i]
    ensures '\n' !in LabelBlock(keys + AutoKeys(), values + AutoValues(o))
  {
    hide LabelsFrom;
    var all := keys + AutoKeys();
    forall i | 0 <= i < |all| ensures '\n' !in all[i] {
      assert i >= |keys| ==> all[i] == AutoKeys()[i - |keys|];
    }
    LabelsOneLine("{", all, values + AutoValues(o));
  }

  lemma {:induction false} RowsLines(c: Context, rows: seq<Row>, xs: seq<string>)
    requires c.env.Valid() && '\n' !in c.name && WellFormed(rows) && AllWritable(c, xs, |rows|)
    requires forall i | 0 <= i < |rows| :: AllSanitized(c.env, rows[i].keys)
    ensures SampleLines(RowsText(c, rows, xs), |rows|)
  {
    hide SampleLines, RowText, Sanitized, Env.Valid;
    if rows == [] {
      NoSampleLines();
    } else {
      var n := |rows| - 1;
      assert RowWritable(c, xs, n);
      RowsLines(c, rows[..n], xs);
      forall i | 0 <= i < |rows[n].keys| ensures '\n' !in rows[n].keys[i] {
        SanitizedClean(c.env, rows[n].keys[i]);
      }
      RowOneLine(c, rows[n], ValueFor(xs, c.value, n));
      SampleLinesBoth(RowsText(c, rows[..n], xs), n, RowText(c, rows[n], ValueFor(xs, c.value, n)), 1);
    }
  }

  lemma MetricLines(env: Env, f: Config, m: Metric, o: Object, d: Draw)
    requires env.Valid() && '\n' !in f.name
    ensures SampleLines(MetricText(env, f, m, o, d), MetricCount(env, f, m, o, d))
  {
    hide SampleLines, RowsText, Legal, RowsOf, XsOf, AllSanitized, AllWritable, WellFormed;
    NoSampleLines();
    if Written(env, f, m, o, d) {
      var rk := ResolverOf(f, m).value;
      RowsWellFormed(env, rk, f, m, o, d);
      RowKeysSanitized(env, rk, f, m, o, d);
      RowsLines(ContextOf(env, f, m, o, d), RowsOf(env, f, m, d), XsOf(env, f, m, d));
    }
  }

  lemma {:induction false} FamilyLines(env: Env, f: Config, o: Object, draws: seq<Draw>, n: nat)
    requires env.Valid() && '\n' !in f.name && n <= |draws| == |f.metrics|
    ensures SampleLines(FamilyText(env, f, o, draws, n), FamilyCount(env, f, o, draws, n))
  {
    hide SampleLines, MetricText, MetricCount;
    if n == 0 {
      NoSampleLines();
    } else {
      FamilyLines(env, f, o, draws, n - 1);
      MetricLines(env, f, f.metrics[n - 1], o, draws[n - 1]);
      SampleLinesBoth(FamilyText(env, f, o, draws, n - 1), FamilyCount(env, f, o, draws, n - 1),
                      MetricText(env, f, f.metrics[n - 1], o, draws[n - 1]),
                      MetricCount(env, f, f.metrics[n - 1], o, draws[n - 1]));
    }
  }

  /** The returned count is the number of lines the family prints when it is not
      cut off, whatever its metrics resolve to. */
  lemma CountFidelity(env: Env, f: Config, o: Object, text: string, count: nat)
    requires env.Valid() && '\n' !in f.name && Outcome(env, f, o, text, count)
    ensures Lines(text) == count
  {
    hide FamilyText, FamilyCount, Legal, Lines;
    var draws :| LegalDraws(env, f, o, draws, |f.metrics|) && IsOutcome(env, f, o, draws, text, count);
    FamilyLines(env, f, o, draws, |f.metrics|);
  }

  /** A family with a single metric. */
  lemma OneMetric(env: Env, f: Config, o: Object, d: Draw)
    requires |f.metrics| == 1 && ResolverOf(f, f.metrics[0]).Some?
    requires Legal(env, ResolverOf(f, f.metrics[0]).value, f, f.metrics[0], o, d)
    ensures LegalDraws(env, f, o, [d], 1)
    ensures FamilyText(env, f, o, [d], 1) == MetricText(env, f, f.metrics[0], o, d)
    ensures FamilyCount(env, f, o, [d], 1) == MetricCount(env, f, f.metrics[0], o, d)
  {
    hide Legal, MetricText, MetricCount;
    assert FamilyText(env, f, o, [d], 0) == "" && FamilyCount(env, f, o, [d], 0) == 0;
  }

  // ---- reading the text back -----------------------------------------------------------------------

  /** What a reader should get from one row. */
  function RowSample(c: Context, row: Row, value: string): Sample
    requires c.env.parse(value).Some?
  {
    Sample(PREFIX + c.name, row.keys + AutoKeys(), row.values + AutoValues(c.obj), ValueText(c.env, value))
  }

  function RowSamples(c: Context, rows: seq<Row>, xs: seq<string>): (r: seq<Sample>)
    requires AllWritable(c, xs, |rows|)
    ensures |r| == |rows|
  {
    seq(|rows|, i requires 0 <= i < |rows| =>
      assert RowWritable(c, xs, i); RowSample(c, rows[i], ValueFor(xs, c.value, i)))
  }

  lemma RowRoundTrip(c: Context, row: Row, value: string, rest: string)
    requires c.env.Valid() && |row.keys| == |row.values| && c.env.parse(value).Some?
    requires AllowedSample(RowSample(c, row, value))
    ensures ReadSample(RowText(c, row, value) + rest) == Some((RowSample(c, row, value), rest))
  {
    hide LabelBlock, ReadSample, LabelName, MetricName;
    var keys, values := row.keys + AutoKeys(), row.values + AutoValues(c.obj);
    var number := ValueText(c.env, value);
    SampleRoundTrip(PREFIX + c.name, keys, values, number, rest);
    assert RowText(c, row, value) + rest
        == PREFIX + c.name + (LabelBlock(keys, values) + (" " + number + "\n" + rest));
  }

  /** One more sample in front. */
  lemma ReadCons(s: string, sample: Sample, rest: string, more: seq<Sample>)
    requires ReadSample(s) == Some((sample, rest)) && |rest| < |s| && ReadSamples(rest) == Some(more)
    ensures ReadSamples(s) == Some([sample] + more)
  {
    StartsWithName(s);
    hide ReadSample;
  }

  lemma StartsWithName(s: string)
    requires ReadSample(s).Some?
    ensures s != [] && s[0] != '#'
  {
  }

  lemma {:induction false} RowsRoundTrip(c: Context, rows: seq<Row>, xs: seq<string>, rest: string, more: seq<Sample>)
    requires c.env.Valid() && WellFormed(rows) && AllWritable(c, xs, |rows|) && AllowedSamples(RowSamples(c, rows, xs))
    requires ReadSamples(rest) == Some(more)
    ensures ReadSamples(RowsText(c, rows, xs) + rest) == Some(RowSamples(c, rows, xs) + more)
    decreases |rows|
  {
    hide RowText, RowSample, ReadSamples, ReadSample, AllowedSample, Env.Valid;
    if rows == [] {
      assert RowsText(c, rows, xs) + rest == rest;
      assert RowSamples(c, rows, xs) + more == more;
    } else {
      var n := |rows| - 1;
      assert RowWritable(c, xs, n);
      var value := ValueFor(xs, c.value, n);
      var line, sample := RowText(c, rows[n], value), RowSample(c, rows[n], value);
      assert RowSamples(c, rows, xs)[n] == sample;
      assert RowSamples(c, rows, xs) == RowSamples(c, rows[..n], xs) + [sample];
      AllowedBoth(RowSamples(c, rows[..n], xs), [sample]);
      RowRoundTrip(c, rows[n], value, rest);
      LineNotEmpty(c, rows[n], value);
      ReadCons(line + rest, sample, rest, more);
      RowsRoundTrip(c, rows[..n], xs, line + rest, [sample] + more);
      assert RowsText(c, rows, xs) + rest == RowsText(c, rows[..n], xs) + (line + rest);
      assert RowSamples(c, rows, xs) + more == RowSamples(c, rows[..n], xs) + ([sample] + more);
    }
  }

  lemma LineNotEmpty(c: Context, row: Row, value: string)
    requires |row.keys| == |row.values| && c.env.parse(value).Some?
    ensures |RowText(c, row, value)| > 0
  {
  }

  /** The samples of one metric, as a reader should see them. */
  ghost function MetricSamples(env: Env, f: Config, m: Metric, o: Object, d: Draw): seq<Sample> {
    if Written(env, f, m, o, d) then
      RowSamples(ContextOf(env, f, m, o, d), RowsOf(env, f, m, d), XsOf(env, f, m, d))
    else []
  }

  ghost function FamilySamples(env: Env, f: Config, o: Object, draws: seq<Draw>, n: nat): seq<Sample>
    requires n <= |draws| == |f.metrics|
  {
    if n == 0 then []
    else FamilySamples(env, f, o, draws, n - 1) + MetricSamples(env, f, f.metrics[n - 1], o, draws[n - 1])
  }

  lemma {:induction false} FamilyRoundTripFrom(env: Env, f: Config, o: Object, draws: seq<Draw>, n: nat, rest: string,
                                               more: seq<Sample>)
    requires env.Valid() && n <= |draws| == |f.metrics| && AllowedSamples(FamilySamples(env, f, o, draws, n))
    requires ReadSamples(rest) == Some(more)
    ensures ReadSamples(FamilyText(env, f, o, draws, n) + rest) == Some(FamilySamples(env, f, o, draws, n) + more)
    decreases n
  {
    hide ReadSamples, MetricText, MetricSamples, AllowedSamples, Env.Valid;
    if n == 0 {
      assert FamilyText(env, f, o, draws, n) + rest == rest;
      assert FamilySamples(env, f, o, draws, n) + more == more;
    } else {
      var m, d := f.metrics[n - 1], draws[n - 1];
      var text, samples := MetricText(env, f, m, o, d), MetricSamples(env, f, m, o, d);
      AllowedBoth(FamilySamples(env, f, o, draws, n - 1), samples);
      MetricRoundTrip(env, f, m, o, d, rest, more);
      FamilyRoundTripFrom(env, f, o, draws, n - 1, text + rest, samples + more);
      assert FamilyText(env, f, o, draws, n) + rest == FamilyText(env, f, o, draws, n - 1) + (text + rest);
      assert FamilySamples(env, f, o, draws, n) + more == FamilySamples(env, f, o, draws, n - 1) + (samples + more);
    }
  }

  lemma MetricRoundTrip(env: Env, f: Config, m: Metric, o: Object, d: Draw, rest: string, more: seq<Sample>)
    requires env.Valid() && AllowedSamples(MetricSamples(env, f, m, o, d)) && ReadSamples(rest) == Some(more)
    ensures ReadSamples(MetricText(env, f, m, o, d) + rest) == Some(MetricSamples(env, f, m, o, d) + more)
  {
    hide ReadSamples, RowsText, Legal, AllowedSamples, RowsOf, XsOf, AllWritable, Env.Valid;
    if Written(env, f, m, o, d) {
      var rk := ResolverOf(f, m).value;
      RowsWellFormed(env, rk, f, m, o, d);
      RowsRoundTrip(ContextOf(env, f, m, o, d), RowsOf(env, f, m, d), XsOf(env, f, m, d), rest, more);
    } else {
      assert "" + rest == rest && [] + more == more;
    }
  }

  lemma {:induction false} SamplesCounted(env: Env, f: Config, o: Object, draws: seq<Draw>, n: nat)
    requires n <= |draws| == |f.metrics|
    ensures |FamilySamples(env, f, o, draws, n)| == FamilyCount(env, f, o, draws, n)
  {
    hide Written, RowsOf, XsOf;
    if n > 0 {
      SamplesCounted(env, f, o, draws, n - 1);
    }
  }

  /** A reader of the format gets from a rendered family exactly its rows, one
      sample each and in order, if and only if their names are allowed. */
  lemma FamilyRoundTrip(env: Env, f: Config, o: Object, draws: seq<Draw>)
    requires env.Valid() && |draws| == |f.metrics|
    ensures ReadSamples(FamilyText(env, f, o, draws, |draws|)) == Some(FamilySamples(env, f, o, draws, |draws|))
       <==> AllowedSamples(FamilySamples(env, f, o, draws, |draws|))
    ensures |FamilySamples(env, f, o, draws, |draws|)| == FamilyCount(env, f, o, draws, |draws|)
  {
    hide FamilyText, FamilySamples, FamilyCount, AllowedSamples, Env.Valid;
    var n := |draws|;
    var text, samples := FamilyText(env, f, o, draws, n), FamilySamples(env, f, o, draws, n);
    SamplesCounted(env, f, o, draws, n);
    ReadSamplesFacts(text);
    if AllowedSamples(samples) {
      FamilyRoundTripFrom(env, f, o, draws, n, "", []);
      assert text + "" == text && samples + [] == samples;
    }
  }

  // ---- what is exposed -----------------------------------------------------------------------------

  /** The tuples label lists and values of one length stand for. */
  ghost function OriginalTuples(keys: seq<string>, values: seq<string>, lists: map<string, seq<string>>,
                                xs: seq<string>): seq<(Row, string)> {
    var names := SortedNames(lists.Keys);
    seq(|xs|, i requires 0 <= i < |xs| => (Row(keys + names, values + Cells(names, lists, i)), xs[i]))
  }

  /** A metric whose label lists and value list all have one length n: if every
      value can be written, its n rows are exactly the n tuples, ordered by the
      anchor label; if any cannot, nothing of the metric is exposed. */
  lemma MetricIsTuples(env: Env, rk: ResolverKind, f: Config, m: Metric, o: Object, d: Draw)
    requires ResolverOf(f, m) == Some(rk) && Legal(env, rk, f, m, o, d) && m.value !in d.r && d.run != []
    requires var lists := Lists(env, f, m, d); lists != map[] && forall k | k in lists :: |lists[k]| == |d.run|
    ensures var lists, rows, xs := Lists(env, f, m, d), RowsOf(env, f, m, d), XsOf(env, f, m, d);
            && |rows| == |xs| == |d.run|
            && multiset(Tuples(rows, xs)) == multiset(OriginalTuples(d.keys, d.values, lists, d.run))
            && Sorted(CoSortedLists(lists, d.run, d.order)[Anchor(lists.Keys)])
    ensures if forall i | 0 <= i < |d.run| :: Writable(env, d.run[i], KindOf(f.name))
            then MetricCount(env, f, m, o, d) == |d.run|
            else MetricCount(env, f, m, o, d) == 0 && MetricText(env, f, m, o, d) == ""
  {
    hide Writable, StaticLabels, Collect.IsRun, Expanded, AnchorOrder, Tuples, Sorted;
    var lists, xs, c := Lists(env, f, m, d), d.run, ContextOf(env, f, m, o, d);
    hide RowsText;
    PositionalCorrespondence(d.keys, d.values, lists, xs, d.order);
    TuplesLength(d.keys, d.values, lists, xs);
    assert Tuples(ExpandedRows(d.keys, d.values, lists), xs) == OriginalTuples(d.keys, d.values, lists, xs);
    AllValuesWritable(c, lists, xs, d.order);
  }

  lemma TuplesLength(keys: seq<string>, values: seq<string>, lists: map<string, seq<string>>, xs: seq<string>)
    ensures |Tuples(ExpandedRows(keys, values, lists), xs)| == |ExpandedRows(keys, values, lists)|
  {
  }

  lemma AllValuesWritable(c: Context, lists: map<string, seq<string>>, xs: seq<string>, order: seq<nat>)
    requires lists != map[] && (forall k | k in lists :: |lists[k]| == |xs|) && AnchorOrder(lists, xs, order)
    ensures AllWritable(c, CoSortedValues(lists, xs, order), |xs|)
       <==> forall i | 0 <= i < |xs| :: Writable(c.env, xs[i], c.kind)
  {
    hide Writable, Sorted;
    assert Sortable(lists, xs);
    PermutationFacts(order, |xs|);
    WritablePermuted(c, xs, order, |xs|);
    if AllWritable(c, xs, |xs|) {
      forall i | 0 <= i < |xs| ensures Writable(c.env, xs[i], c.kind) { assert RowWritable(c, xs, i); }
    }
  }

  // ---- how many rows ---------------------------------------------------------------------------------

  /** Same names, same lengths. */
  ghost predicate SameShape(a: map<string, seq<string>>, b: map<string, seq<string>>) {
    a.Keys == b.Keys && forall k | k in a :: |a[k]| == |b[k]|
  }

  /** Every expression gave entries of the same names both times. */
  ghost predicate SameNames(rs: seq<Resolution>, rs': seq<Resolution>) {
    |rs| == |rs'| && forall i | 0 <= i < |rs| :: rs[i].Keys == rs'[i].Keys
  }

  lemma {:induction false} ExpandedShape(env: Env, labels: seq<Label>, rs: seq<Resolution>, rs': seq<Resolution>,
                                         runs: seq<seq<string>>, runs': seq<seq<string>>)
    requires SameNames(rs, rs') && LabelRuns(labels, rs, runs) && LabelRuns(labels, rs', runs')
    ensures SameShape(Expanded(env, labels, rs, runs), Expanded(env, labels, rs', runs'))
  {
    hide IsRun;
    if labels != [] {
      var n := |labels| - 1;
      assert labels[..n][..n] == labels[..n];
      ExpandedShape(env, labels[..n], rs[..n], rs'[..n], runs[..n], runs'[..n]);
      if !IsScalar(labels[n], rs[n]) {
        RunDetermined(rs[n], rs'[n], runs[n], runs'[n]);
      }
    }
  }

  lemma {:induction false} MaxLenShape(names: seq<string>, a: map<string, seq<string>>, b: map<string, seq<string>>)
    requires SameShape(a, b) && forall i | 0 <= i < |names| :: names[i] in a
    ensures MaxLen(names, a) == MaxLen(names, b)
  {
    if names != [] {
      MaxLenShape(names[..|names| - 1], a, b);
    }
  }

  /** How many rows there are. */
  ghost function RowCountOf(lists: map<string, seq<string>>, xs: seq<string>): nat {
    if lists == map[] then (if xs == [] then 1 else |xs|) else MaxLen(SortedNames(lists.Keys), lists)
  }

  lemma CoSortedShape(lists: map<string, seq<string>>, xs: seq<string>, order: seq<nat>)
    requires AnchorOrder(lists, xs, order)
    ensures SameShape(CoSortedLists(lists, xs, order), lists) && |CoSortedValues(lists, xs, order)| == |xs|
    ensures Sortable(lists, xs) ==> RowCountOf(lists, xs) >= |xs|
  {
    hide Sorted, IsPermutation;
    if Sortable(lists, xs) {
      var names := SortedNames(lists.Keys);
      EnumerationFacts(names, lists.Keys);
      assert Anchor(lists.Keys) in names;
    }
  }

  lemma RowsShape(keys: seq<string>, values: seq<string>, lists: map<string, seq<string>>, xs: seq<string>,
                  order: seq<nat>)
    requires AnchorOrder(lists, xs, order)
    ensures |MetricRows(keys, values, CoSortedLists(lists, xs, order), CoSortedValues(lists, xs, order))|
              == RowCountOf(lists, xs)
  {
    hide IsPermutation, Sorted, Sortable, CoSortedLists, CoSortedValues, Cells, MaxLen;
    CoSortedShape(lists, xs, order);
    var lists', xs' := CoSortedLists(lists, xs, order), CoSortedValues(lists, xs, order);
    if lists == map[] {
      assert lists' == map[];
    } else {
      assert lists' != map[] by { var k :| k in lists; assert k in lists'; }
      MaxLenShape(SortedNames(lists.Keys), lists', lists);
    }
  }

  /** Co-sorting does not change whether all rows can be written. */
  lemma WritableUnsorted(c: Context, lists: map<string, seq<string>>, xs: seq<string>, order: seq<nat>)
    requires AnchorOrder(lists, xs, order)
    ensures AllWritable(c, CoSortedValues(lists, xs, order), RowCountOf(lists, xs))
       <==> AllWritable(c, xs, RowCountOf(lists, xs))
  {
    hide Writable, RowCountOf, Sorted;
    CoSortedShape(lists, xs, order);
    if Sortable(lists, xs) {
      PermutationFacts(order, |xs|);
      assert CoSortedValues(lists, xs, order) == Apply(xs, order);
      WritablePermuted(c, xs, order, RowCountOf(lists, xs));
    }
  }

  lemma WritablePermuted(c: Context, xs: seq<string>, order: seq<nat>, n: nat)
    requires |order| == |xs| && Below(order, |xs|) && (forall i: nat | i < |xs| :: i in order) && n >= |xs|
    ensures AllWritable(c, Apply(xs, order), n) <==> AllWritable(c, xs, n)
  {
    hide Writable;
    var ys := Apply(xs, order);
    if AllWritable(c, xs, n) {
      forall i: nat | i < n ensures RowWritable(c, ys, i) {
        if i < |xs| {
          assert RowWritable(c, xs, order[i]);
        } else {
          assert RowWritable(c, xs, i);
        }
      }
    }
    if AllWritable(c, ys, n) {
      forall i: nat | i < n ensures RowWritable(c, xs, i) {
        if i < |xs| {
          assert i in order;
          var j: nat :| j < |order| && order[j] == i;
          assert RowWritable(c, ys, j);
        } else {
          assert RowWritable(c, ys, i);
        }
      }
    }
  }

  lemma ShapeDecides(a: map<string, seq<string>>, b: map<string, seq<string>>, xs: seq<string>)
    requires SameShape(a, b)
    ensures RowCountOf(a, xs) == RowCountOf(b, xs)
  {
    if a == map[] {
      assert b == map[];
    } else {
      assert b != map[] by { var k :| k in a; assert k in b; }
      MaxLenShape(SortedNames(a.Keys), a, b);
    }
  }
}
