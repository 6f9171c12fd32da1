/** Writing the samples of one metric (internal/family.go,
    writeMetricSamplesWithCount and writeExpandedSamples). */
module Samples {
  import opened Basics
  import opened Resources
  import opened Exposition
  import opened Slices
  import opened Labels
  import opened Expansion

  const PREFIX: string := "kube_customresource_"

  /** What every sample of a metric shares. */
  datatype Context = Context(env: Env, obj: Object, name: string, kind: MetricKind, value: string)

  /** The value written with row i. */
  predicate RowWritable(c: Context, xs: seq<string>, i: nat) {
    Writable(c.env, ValueFor(xs, c.value, i), c.kind)
  }

  ghost predicate AllWritable(c: Context, xs: seq<string>, n: nat) {
    forall i: nat | i < n :: RowWritable(c, xs, i)
  }

  function RowText(c: Context, row: Row, value: string): string
    requires |row.keys| == |row.values| && c.env.parse(value).Some?
  {
    PREFIX + c.name + SampleTail(c.env, c.obj, row.keys, row.values, value)
  }

  ghost predicate WellFormed(rows: seq<Row>) {
    forall i | 0 <= i < |rows| :: |rows[i].keys| == |rows[i].values|
  }

  /** The text of the rows, one line each. */
  function RowsText(c: Context, rows: seq<Row>, xs: seq<string>): string
    requires WellFormed(rows) && AllWritable(c, xs, |rows|)
  {
    if rows == [] then ""
    else
      var n := |rows| - 1;
      assert RowWritable(c, xs, n);
      RowsText(c, rows[..n], xs) + RowText(c, rows[n], ValueFor(xs, c.value, n))
  }

  ghost predicate Printed(c: Context, xs: seq<string>, rows: seq<Row>, start: string, text: string) {
    WellFormed(rows) && AllWritable(c, xs, |rows|) && text == start + RowsText(c, rows, xs)
  }

  lemma RowFails(c: Context, xs: seq<string>, i: nat, n: nat)
    requires i < n && !RowWritable(c, xs, i)
    ensures !AllWritable(c, xs, n)
  {
  }

  lemma NothingPrinted(c: Context, xs: seq<string>, text: string)
    ensures Printed(c, xs, [], text, text)
  {
  }

  lemma PrintedWritable(c: Context, xs: seq<string>, rows: seq<Row>, start: string, text: string)
    requires Printed(c, xs, rows, start, text)
    ensures AllWritable(c, xs, |rows|)
  {
  }

  /** The writeMetric closure with the variables it captures. */
  class SampleWriter {
    const context: Context
    const xs: seq<string>
    const builder: Builder
    var sampleCount: nat
    var expandedValueIndex: nat

    constructor (context: Context, xs: seq<string>, builder: Builder)
      ensures this.context == context && this.xs == xs && this.builder == builder
      ensures sampleCount == 0 && expandedValueIndex == 0
    {
      this.context, this.xs, this.builder := context, xs, builder;
      sampleCount, expandedValueIndex := 0, 0;
    }

    /** Exactly the given rows have been written after the text start. */
    ghost predicate Wrote(rows: seq<Row>, start: string)
      reads this, builder
    {
      sampleCount == expandedValueIndex == |rows| && Printed(context, xs, rows, start, builder.text)
    }

    method WriteMetric(keys: seq<string>, values: seq<string>, ghost rows: seq<Row>, ghost start: string)
        returns (ok: bool)
      requires |keys| == |values| && Wrote(rows, start)
      modifies this, builder
      ensures ok == RowWritable(context, xs, |rows|)
      ensures ok ==> Wrote(rows + [Row(keys, values)], start)
    {
      hide SampleTail, Writable;
      builder.WriteString(PREFIX + context.name);
      var currentValue := context.value;
      if expandedValueIndex < |xs| {
        currentValue := xs[expandedValueIndex];
      }
      expandedValueIndex := expandedValueIndex + 1;
      sampleCount := sampleCount + 1;
      ok := WriteMetricTo(context.env, builder, context.obj, currentValue, keys, values, context.kind);
      if ok {
        MoreText(context, rows, Row(keys, values), xs, currentValue);
      }
    }
  }

  lemma MoreText(c: Context, rows: seq<Row>, row: Row, xs: seq<string>, value: string)
    requires WellFormed(rows) && AllWritable(c, xs, |rows|)
    requires |row.keys| == |row.values| && RowWritable(c, xs, |rows|) && value == ValueFor(xs, c.value, |rows|)
    ensures WellFormed(rows + [row]) && AllWritable(c, xs, |rows| + 1)
    ensures RowsText(c, rows + [row], xs) == RowsText(c, rows, xs) + RowText(c, row, value)
  {
    hide SampleTail, Writable;
    assert (rows + [row])[..|rows|] == rows;
  }

  // ---- the consuming zip ---------------------------------------------------------------------

  /** List k after i rows have popped their heads off. */
  function Popped(s: Slice, i: nat): Slice
    requires s.Valid()
  {
    if i < s.Len() then s.(from := s.from + i) else s.(from := s.to)
  }

  ghost predicate PoppedAll(lists: map<string, Slice>, names: seq<string>, i: nat, j: nat, now: map<string, Slice>) {
    && (forall k | k in lists :: lists[k].Valid())
    && now.Keys == lists.Keys && Distinct(names)
    && (forall a | 0 <= a < |names| ::
          names[a] in lists && now[names[a]] == Popped(lists[names[a]], if a < j then i + 1 else i))
  }

  /** contents is what the lists hold. */
  ghost predicate Holds(lists: map<string, Slice>, contents: map<string, seq<string>>)
    reads SliceData(lists)
  {
    lists.Keys == contents.Keys && forall k | k in lists :: lists[k].Valid() && lists[k].Elems() == contents[k]
  }

  /** The appends of a row start at the end of the label values, in the same
      array as long as there is room. */
  ghost predicate Grown(s: Slice, n: nat, t: Slice) {
    t.Valid() && (t.data == s.data ==> t.from == s.from && t.to == s.to + n)
  }

  /** One row: pop the head of every list, "" from an empty one. The row is built
      by appending to the shared label-value slice; its spare capacity may be
      overwritten again and again, but the window handed out is a copy. */
  method BuildRow(expansionKeys: Slice, labelValues: Slice, lists: map<string, Slice>,
                  ghost contents: map<string, seq<string>>,
                  ghost names: seq<string>, ghost i: nat, expanded: map<string, Slice>)
    returns (row: seq<string>, expanded': map<string, Slice>)
    requires expansionKeys.Valid() && labelValues.Valid() && expansionKeys.data != labelValues.data
    requires expansionKeys.Elems() == names
    requires Holds(lists, contents) && (forall k | k in lists :: lists[k].data != labelValues.data)
    requires PoppedAll(lists, names, i, 0, expanded)
    modifies labelValues.data
    ensures forall j | 0 <= j < |names| :: names[j] in contents
    ensures row == old(labelValues.Elems()) + Cells(names, contents, i)
    ensures labelValues.Elems() == old(labelValues.Elems())
    ensures PoppedAll(lists, names, i + 1, 0, expanded')
  {
    PoppedNames(lists, names, i, 0, expanded);
    hide PoppedAll, Cells, Cell, Grown;
    WindowItself(labelValues);
    ghost var values, cells := labelValues.Elems(), Cells(names, contents, i);
    var ephemeral := labelValues;
    expanded' := expanded;
    for j := 0 to expansionKeys.Len()
      invariant PoppedAll(lists, names, i, j, expanded')
      invariant ephemeral.data == labelValues.data || fresh(ephemeral.data)
      invariant Grown(labelValues, j, ephemeral)
      invariant ephemeral.Elems() == values + cells[..j]
      invariant labelValues.Elems() == values
    {
      var k := expansionKeys.data[expansionKeys.from + j];
      assert k == names[j];
      ephemeral, expanded' := PopOne(labelValues, lists, names, i, j, contents[k], expanded', ephemeral, k);
      CellAt(names, contents, i, j, values);
    }
    assert cells[..|names|] == cells;
    PoppedRound(lists, names, i, expanded');
    row := ephemeral.data[ephemeral.from..ephemeral.to];
  }

  /** The inner loop body. */
  method PopOne(ghost labelValues: Slice, ghost lists: map<string, Slice>, ghost names: seq<string>, ghost i: nat,
                ghost j: nat, ghost list: seq<string>, expanded: map<string, Slice>, ephemeral: Slice, k: string)
    returns (ephemeral': Slice, expanded': map<string, Slice>)
    requires labelValues.Valid() && Grown(labelValues, j, ephemeral)
    requires j < |names| && k == names[j] && PoppedAll(lists, names, i, j, expanded)
    requires k in lists && lists[k].Valid() && lists[k].data != ephemeral.data && list == lists[k].Elems()
    modifies ephemeral.data
    ensures ephemeral'.data == ephemeral.data || fresh(ephemeral'.data)
    ensures Grown(labelValues, j + 1, ephemeral') && labelValues.Elems() == old(labelValues.Elems())
    ensures ephemeral'.Elems() == old(ephemeral.Elems()) + [Cell(list, i)]
    ensures PoppedAll(lists, names, i, j + 1, expanded')
  {
    PopStep(lists, names, i, j, expanded);
    hide PoppedAll;
    expanded' := expanded;
    var vs := expanded[k];
    if vs.Len() == 0 {
      ephemeral' := AppendBeyond(labelValues, j, ephemeral, "");
    } else {
      ephemeral' := AppendBeyond(labelValues, j, ephemeral, vs.data[vs.from]);
      expanded' := expanded[k := vs.(from := vs.from + 1)];
    }
  }

  /** Appending past the end of a window leaves the window alone. */
  method AppendBeyond(ghost window: Slice, ghost n: nat, s: Slice, x: string) returns (r: Slice)
    requires window.Valid() && Grown(window, n, s)
    modifies s.data
    ensures r.data == s.data || fresh(r.data)
    ensures Grown(window, n + 1, r) && window.Elems() == old(window.Elems())
    ensures r.Elems() == old(s.Elems()) + [x]
  {
    r := Append(s, x);
  }

  lemma PoppedNone(lists: map<string, Slice>, names: seq<string>)
    requires Distinct(names) && (forall k | k in lists :: lists[k].Valid())
               && forall a | 0 <= a < |names| :: names[a] in lists
    ensures PoppedAll(lists, names, 0, 0, lists)
  {
  }

  lemma NextRow(rows: seq<Row>, keys: seq<string>, values: seq<string>, names: seq<string>,
                contents: map<string, seq<string>>, i: nat)
    requires (forall a | 0 <= a < |names| :: names[a] in contents) && i < |rows|
               && RowsAre(rows, keys, values, names, contents)
    ensures rows[..i + 1] == rows[..i] + [Row(keys, values + Cells(names, contents, i))]
  {
  }

  lemma WindowItself(s: Slice)
    requires s.Valid()
    ensures Grown(s, 0, s)
  {
  }

  lemma CellAt(names: seq<string>, contents: map<string, seq<string>>, i: nat, j: nat, values: seq<string>)
    requires j < |names| && forall a | 0 <= a < |names| :: names[a] in contents
    ensures var cells := Cells(names, contents, i);
            values + cells[..j + 1] == values + cells[..j] + [Cell(contents[names[j]], i)]
  {
    var cells := Cells(names, contents, i);
    assert cells[..j + 1] == cells[..j] + [cells[j]];
  }

  lemma PoppedNames(lists: map<string, Slice>, names: seq<string>, i: nat, j: nat, now: map<string, Slice>)
    requires PoppedAll(lists, names, i, j, now)
    ensures now.Keys == lists.Keys && forall a | 0 <= a < |names| :: names[a] in lists
  {
  }

  lemma PoppedRound(lists: map<string, Slice>, names: seq<string>, i: nat, now: map<string, Slice>)
    requires PoppedAll(lists, names, i, |names|, now)
    ensures PoppedAll(lists, names, i + 1, 0, now)
  {
  }

  lemma PopStep(lists: map<string, Slice>, names: seq<string>, i: nat, j: nat, now: map<string, Slice>)
    requires j < |names| && PoppedAll(lists, names, i, j, now)
    ensures names[j] in now && names[j] in lists && lists[names[j]].Valid()
    ensures forall a | 0 <= a < |names| :: names[a] in lists
    ensures var vs, list := now[names[j]], lists[names[j]];
            && vs.Valid() && vs.data == list.data
            && (vs.Len() == 0 ==> i >= list.Len() && PoppedAll(lists, names, i, j + 1, now))
            && (vs.Len() > 0 ==>
                  && i < list.Len() && vs.from == list.from + i
                  && PoppedAll(lists, names, i, j + 1, now[names[j] := vs.(from := vs.from + 1)]))
  {
  }

  /** Appends the sorted expanded keys and finds the longest list. */
  method AppendKeys(labelKeys: Slice, lists: map<string, Slice>, names: seq<string>,
                    ghost contents: map<string, seq<string>>)
    returns (keys: Slice, seriesToGenerate: nat)
    requires labelKeys.Valid() && Holds(lists, contents) && forall k | k in lists :: lists[k].data != labelKeys.data
    requires forall j | 0 <= j < |names| :: names[j] in lists
    modifies labelKeys.data
    ensures keys.Valid() && (keys.data == labelKeys.data || fresh(keys.data))
    ensures keys.Elems() == old(labelKeys.Elems()) + names
    ensures seriesToGenerate == MaxLen(names, contents)
  {
    keys, seriesToGenerate := labelKeys, 0;
    for j := 0 to |names|
      invariant keys.Valid() && (keys.data == labelKeys.data || fresh(keys.data))
      invariant keys.Elems() == old(labelKeys.Elems()) + names[..j]
      invariant seriesToGenerate == MaxLen(names[..j], contents)
    {
      keys := Append(keys, names[j]);
      assert names[..j + 1][..j] == names[..j] && names[..j + 1] == names[..j] + [names[j]];
      assert lists[names[j]].Len() == |contents[names[j]]|;
      if lists[names[j]].Len() > seriesToGenerate {
        seriesToGenerate := lists[names[j]].Len();
      }
    }
    assert names[..|names|] == names;
  }

  method WriteExpandedSamples(w: SampleWriter, labelKeys: Slice, labelValues: Slice, lists: map<string, Slice>,
                              ghost contents: map<string, seq<string>>, ghost start: string)
    returns (ok: bool)
    requires Apart(labelKeys, labelValues, lists) && Holds(lists, contents) && w.Wrote([], start)
    modifies w, w.builder, labelKeys.data, labelValues.data
    ensures var rows := ExpandedRows(old(labelKeys.Elems()), old(labelValues.Elems()), contents);
            && ok == AllWritable(w.context, w.xs, |rows|)
            && (ok ==> w.Wrote(rows, start))
  {
    var names := SortedKeys(lists.Keys);
    ghost var keys0, values0 := labelKeys.Elems(), labelValues.Elems();
    SortedRows(names, keys0, values0, contents);
    PoppedNone(lists, names);
    hide SortedEnumeration, PoppedAll, Printed, RowsAre, Distinct, Cells, MaxLen, Holds, AllWritable;
    ghost var rows := ExpandedRows(keys0, values0, contents);
    var expansionKeys, allKeys, seriesToGenerate := ExpandKeys(labelKeys, lists, names, contents);
    ok := WriteRows(w, expansionKeys, allKeys, labelValues, lists, seriesToGenerate, contents, names, rows, start);
  }

  /** The key slice with the expanded keys appended, once as the window on those
      keys and once as the copy handed to the writer. */
  method ExpandKeys(labelKeys: Slice, lists: map<string, Slice>, names: seq<string>,
                    ghost contents: map<string, seq<string>>)
    returns (expansionKeys: Slice, allKeys: seq<string>, seriesToGenerate: nat)
    requires labelKeys.Valid() && Holds(lists, contents) && forall k | k in lists :: lists[k].data != labelKeys.data
    requires |names| == |lists| && forall j | 0 <= j < |names| :: names[j] in lists
    modifies labelKeys.data
    ensures expansionKeys.Valid() && (expansionKeys.data == labelKeys.data || fresh(expansionKeys.data))
    ensures expansionKeys.Elems() == names && allKeys == old(labelKeys.Elems()) + names
    ensures seriesToGenerate == MaxLen(names, contents)
  {
    hide MaxLen, Holds;
    var keys;
    keys, seriesToGenerate := AppendKeys(labelKeys, lists, names, contents);
    expansionKeys := keys.(from := keys.to - |lists|);
    allKeys := keys.data[keys.from..keys.to];
  }

  lemma SortedRows(names: seq<string>, keys: seq<string>, values: seq<string>, contents: map<string, seq<string>>)
    requires SortedEnumeration(names, contents.Keys)
    ensures |names| == |contents| && Distinct(names) && (forall j | 0 <= j < |names| :: names[j] in contents)
    ensures |ExpandedRows(keys, values, contents)| == MaxLen(names, contents)
    ensures RowsAre(ExpandedRows(keys, values, contents), keys + names, values, names, contents)
  {
    EnumerationUnique(names, contents.Keys);
    EnumerationFacts(names, contents.Keys);
  }

  /** rows are the shared keys with the label values and one cell of each list. */
  ghost predicate RowsAre(rows: seq<Row>, keys: seq<string>, values: seq<string>, names: seq<string>,
                          contents: map<string, seq<string>>)
    requires forall j | 0 <= j < |names| :: names[j] in contents
  {
    forall i: nat | i < |rows| :: rows[i] == Row(keys, values + Cells(names, contents, i))
  }

  /** `for range seriesToGenerate` */
  method WriteRows(w: SampleWriter, expansionKeys: Slice, allKeys: seq<string>, labelValues: Slice,
                   lists: map<string, Slice>,
                   seriesToGenerate: nat, ghost contents: map<string, seq<string>>, ghost names: seq<string>,
                   ghost rows: seq<Row>, ghost start: string)
    returns (ok: bool)
    requires expansionKeys.Valid() && labelValues.Valid() && expansionKeys.data != labelValues.data
    requires expansionKeys.Elems() == names && |allKeys| == labelValues.Len() + |names|
    requires Holds(lists, contents) && (forall k | k in lists :: lists[k].data != labelValues.data)
    requires PoppedAll(lists, names, 0, 0, lists) && forall j | 0 <= j < |names| :: names[j] in contents
    requires |rows| == seriesToGenerate && RowsAre(rows, allKeys, labelValues.Elems(), names, contents)
    requires w.Wrote([], start)
    modifies w, w.builder, labelValues.data
    ensures ok == AllWritable(w.context, w.xs, |rows|)
    ensures ok ==> w.Wrote(rows, start)
  {
    hide PoppedAll, Cells, RowWritable, Printed, AllWritable, Holds, RowsAre;
    ghost var values0 := labelValues.Elems();
    var expanded := lists;
    assert rows[..0] == [];
    for i := 0 to seriesToGenerate
      invariant Holds(lists, contents) && PoppedAll(lists, names, i, 0, expanded)
      invariant labelValues.Elems() == values0 && expansionKeys.Elems() == names
      invariant w.Wrote(rows[..i], start)
    {
      NextRow(rows, allKeys, values0, names, contents, i);
      ok, expanded := WriteRow(w, expansionKeys, allKeys, labelValues, lists, contents, names, i, expanded, rows[..i],
          start);
      if !ok {
        RowFails(w.context, w.xs, i, |rows|);
        return;
      }
    }
    assert rows[..seriesToGenerate] == rows;
    PrintedWritable(w.context, w.xs, rows, start, w.builder.text);
    ok := true;
  }

  /** The outer loop body. */
  method WriteRow(w: SampleWriter, expansionKeys: Slice, allKeys: seq<string>, labelValues: Slice,
                  lists: map<string, Slice>,
                  ghost contents: map<string, seq<string>>, ghost names: seq<string>, ghost i: nat,
                  expanded: map<string, Slice>, ghost rows: seq<Row>, ghost start: string)
    returns (ok: bool, expanded': map<string, Slice>)
    requires expansionKeys.Valid() && labelValues.Valid() && expansionKeys.data != labelValues.data
    requires expansionKeys.Elems() == names && |allKeys| == labelValues.Len() + |names|
    requires Holds(lists, contents) && (forall k | k in lists :: lists[k].data != labelValues.data)
    requires PoppedAll(lists, names, i, 0, expanded) && forall j | 0 <= j < |names| :: names[j] in contents
    requires w.Wrote(rows, start)
    modifies w, w.builder, labelValues.data
    ensures Holds(lists, contents) && expansionKeys.Elems() == names
    ensures labelValues.Elems() == old(labelValues.Elems()) && PoppedAll(lists, names, i + 1, 0, expanded')
    ensures ok == RowWritable(w.context, w.xs, |rows|)
    ensures ok ==> w.Wrote(rows + [Row(allKeys, old(labelValues.Elems()) + Cells(names, contents, i))], start)
  {
    hide PoppedAll, Cells, RowWritable, Printed;
    var row;
    row, expanded' := BuildRow(expansionKeys, labelValues, lists, contents, names, i, expanded);
    ok := w.WriteMetric(allKeys, row, rows, start);
  }

  // ---- one metric -------------------------------------------------------------------------------

  /** All rows were written and counted, or some value cannot be written. */
  ghost predicate Emitted(c: Context, rows: seq<Row>, xs: seq<string>, count: nat, ok: bool, before: string,
                          after: string) {
    && ok == AllWritable(c, xs, |rows|)
    && (ok ==> count == |rows| && Printed(c, xs, rows, before, after))
  }

  /** The same labels once, or once per expanded value. */
  method WriteSameLabels(w: SampleWriter, keys: seq<string>, values: seq<string>, ghost start: string)
      returns (ok: bool)
    requires |keys| == |values| && w.Wrote([], start)
    modifies w, w.builder
    ensures var rows := SameRows(keys, values, w.xs);
            ok == AllWritable(w.context, w.xs, |rows|) && (ok ==> w.Wrote(rows, start))
  {
    hide Printed, RowWritable, AllWritable;
    var n := if |w.xs| == 0 then 1 else |w.xs|;
    ghost var rows := SameRows(keys, values, w.xs);
    assert rows[..0] == [];
    for i := 0 to n
      invariant w.Wrote(rows[..i], start)
    {
      assert rows[..i + 1] == rows[..i] + [Row(keys, values)];
      ok := w.WriteMetric(keys, values, rows[..i], start);
      if !ok {
        RowFails(w.context, w.xs, i, n);
        return;
      }
    }
    assert rows[..n] == rows;
    PrintedWritable(w.context, w.xs, rows, start, w.builder.text);
    ok := true;
  }

  method WriteRowsOf(c: Context, b: Builder, keys: Slice, values: Slice, lists: map<string, Slice>, xs: seq<string>)
    returns (count: nat, ok: bool)
    requires Apart(keys, values, lists)
    modifies b, keys.data, values.data
    ensures Emitted(c, MetricRows(old(keys.Elems()), old(values.Elems()), old(Contents(lists)), xs), xs, count, ok,
                    old(b.text), b.text)
  {
    hide Printed, AllWritable, ExpandedRows;
    NothingPrinted(c, xs, b.text);
    var w := new SampleWriter(c, xs, b);
    ghost var start, contents := b.text, Contents(lists);
    assert lists.Keys == contents.Keys;
    if |lists| == 0 {
      assert contents == map[];
      ok := WriteSameLabels(w, keys.data[keys.from..keys.to], values.data[values.from..values.to], start);
    } else {
      assert contents != map[];
      ok := WriteExpandedSamples(w, keys, values, lists, contents, start);
    }
    count := w.sampleCount;
    ghost var rows := MetricRows(old(keys.Elems()), old(values.Elems()), contents, xs);
    assert ok == AllWritable(c, xs, |rows|) && (ok ==> w.Wrote(rows, start));
    assert contents == old(Contents(lists));
  }

  method WriteMetricSamplesWithCount(c: Context, b: Builder, keys: Slice, values: Slice, expanded: map<string, Slice>)
    returns (count: nat, ok: bool, ghost order: seq<nat>)
    requires Apart(keys, values, expanded) && "" !in expanded
    modifies b, keys.data, values.data, SliceData(expanded)
    ensures var lists := old(Contents(expanded - {SENTINEL}));
            var xs := if SENTINEL in expanded then old(expanded[SENTINEL].Elems()) else [];
            && AnchorOrder(lists, xs, order)
            && var xs' := CoSortedValues(lists, xs, order);
               var rows := MetricRows(old(keys.Elems()), old(values.Elems()), CoSortedLists(lists, xs, order), xs');
               Emitted(c, rows, xs', count, ok, old(b.text), b.text)
  {
    hide AnchorOrder, CoSortedLists, CoSortedValues, Emitted, MetricRows;
    var expandedValues, lists;
    expandedValues, lists, order := ExtractAndSortExpandedMetricValues(expanded);
    assert keys.Elems() == old(keys.Elems()) && values.Elems() == old(values.Elems());
    count, ok := WriteRowsOf(c, b, keys, values, lists, expandedValues.data[expandedValues.from..expandedValues.to]);
  }
}
