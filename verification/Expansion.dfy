/** From expanded lists to sample rows (internal/family.go): co-sorting lists and
    values by an anchor label, zipping the lists, and writing one sample a row. */
module Expansion {
  import opened Basics
  import opened Slices
  import opened LabelSorting
  import opened Labels

  // ---- names in order --------------------------------------------------------------------

  ghost predicate SortedEnumeration(names: seq<string>, s: set<string>) {
    Sorted(names) && multiset(names) == multiset(s)
  }

  /** slices.Sorted(maps.Keys(lists)) */
  method SortedKeys(s: set<string>) returns (names: seq<string>)
    ensures SortedEnumeration(names, s)
  {
    var all: seq<string> := [];
    var rest := s;
    while rest != {}
      invariant rest <= s && multiset(all) + multiset(rest) == multiset(s)
      decreases rest
    {
      var k :| k in rest;
      all := all + [k];
      assert multiset(rest) == multiset(rest - {k}) + multiset{k};
      rest := rest - {k};
    }
    var order := SortFunc(all);
    names := Apply(all, order);
    PermutedMultiset(all, order);
  }

  lemma {:induction false} EnumerationExists(s: set<string>)
    ensures exists names :: SortedEnumeration(names, s)
  {
    if s == {} {
      assert SortedEnumeration([], s);
    } else {
      var k := LeastExists(s);
      EnumerationExists(s - {k});
      var names :| SortedEnumeration(names, s - {k});
      forall i | 0 <= i < |names| ensures Le(k, names[i]) {
        assert names[i] in multiset(names);
        assert names[i] in s - {k};
      }
      SortedFromHead(k, names);
      assert multiset(s) == multiset(s - {k}) + multiset{k};
      assert multiset([k] + names) == multiset{k} + multiset(names);
      assert SortedEnumeration([k] + names, s);
    }
  }

  ghost predicate IsLeast(k: string, s: set<string>) {
    k in s && forall j | j in s :: Le(k, j)
  }

  lemma {:induction false} LeastExists(s: set<string>) returns (k: string)
    requires s != {}
    ensures IsLeast(k, s)
  {
    k :| k in s;
    LeTotal(k, k);
    if s != {k} {
      var m := LeastExists(s - {k});
      LeTotal(k, m);
      if Le(k, m) {
        forall j | j in s - {k} ensures Le(k, j) { LeTransitive(k, m, j); }
      } else {
        k := m;
      }
    }
  }

  ghost function SortedNames(s: set<string>): (names: seq<string>)
    ensures SortedEnumeration(names, s)
    ensures forall i | 0 <= i < |names| :: names[i] in s
  {
    EnumerationExists(s);
    var names :| SortedEnumeration(names, s);
    EnumerationFacts(names, s);
    names
  }

  lemma EnumerationUnique(names: seq<string>, s: set<string>)
    requires SortedEnumeration(names, s)
    ensures names == SortedNames(s)
  {
    SortedUnique(names, SortedNames(s));
  }

  lemma EnumerationFacts(names: seq<string>, s: set<string>)
    requires SortedEnumeration(names, s)
    ensures |names| == |s| && Distinct(names)
    ensures forall i | 0 <= i < |names| :: names[i] in s
    ensures forall k | k in s :: k in names
  {
    assert |multiset(names)| == |names| && |multiset(s)| == |s|;
    forall i | 0 <= i < |names| ensures names[i] in s { assert names[i] in multiset(names); }
    forall k | k in s ensures k in names { assert k in multiset(s); }
    forall i, j | 0 <= i < j < |names| ensures names[i] != names[j] {
      var rest := names[..i] + names[i + 1..];
      SplitAt(names, i);
      assert rest[j - 1] == names[j];
      assert names[j] in multiset(rest);
      assert multiset(s)[names[i]] == 1;
      assert multiset(rest)[names[i]] == 0;
    }
  }

  // ---- co-sorting by the anchor --------------------------------------------------------------

  const SENTINEL: string := "\0"

  /** The lexicographically smallest label name. */
  ghost function Anchor(s: set<string>): (k: string)
    requires s != {}
    ensures IsLeast(k, s)
  {
    EnumerationFacts(SortedNames(s), s);
    var names := SortedNames(s);
    assert |names| == |s| && |s| != 0;
    LeTotal(names[0], names[0]);
    forall j | j in s ensures Le(names[0], j) {
      var i :| 0 <= i < |names| && names[i] == j;
    }
    names[0]
  }

  lemma AnchorUnique(k: string, s: set<string>)
    requires IsLeast(k, s)
    ensures s != {} && k == Anchor(s)
  {
    LeAntisymmetric(k, Anchor(s));
  }

  /** Lists and values are co-sorted only if there is a label list and the anchor
      list is as long as the value list. */
  ghost predicate Sortable(lists: map<string, seq<string>>, xs: seq<string>) {
    lists != map[] && |lists[Anchor(lists.Keys)]| == |xs|
  }

  /** order may be the permutation the unstable sort of the anchor came up with. */
  ghost predicate AnchorOrder(lists: map<string, seq<string>>, xs: seq<string>, order: seq<nat>) {
    Below(order, |order|) &&
    (Sortable(lists, xs) ==>
       IsPermutation(order, |xs|) && |order| == |xs| && Sorted(Apply(lists[Anchor(lists.Keys)], order)))
  }

  ghost function CoSortedLists(lists: map<string, seq<string>>, xs: seq<string>,
                               order: seq<nat>): map<string, seq<string>>
    requires Below(order, |order|)
  {
    if Sortable(lists, xs) then map k | k in lists :: Permuted(lists[k], order) else lists
  }

  ghost function CoSortedValues(lists: map<string, seq<string>>, xs: seq<string>, order: seq<nat>): seq<string>
    requires Below(order, |order|)
  {
    if Sortable(lists, xs) then Permuted(xs, order) else xs
  }

  // ---- rows -------------------------------------------------------------------------------------

  datatype Row = Row(keys: seq<string>, values: seq<string>)

  function MaxLen(names: seq<string>, lists: map<string, seq<string>>): (n: nat)
    requires forall i | 0 <= i < |names| :: names[i] in lists
    ensures forall i | 0 <= i < |names| :: |lists[names[i]]| <= n
  {
    if names == [] then 0
    else
      var m := MaxLen(names[..|names| - 1], lists);
      if |lists[names[|names| - 1]]| > m then |lists[names[|names| - 1]]| else m
  }

  function Cell(list: seq<string>, i: nat): string {
    if i < |list| then list[i] else ""
  }

  /** The i-th element of each list, "" past its end. */
  function Cells(names: seq<string>, lists: map<string, seq<string>>, i: nat): (r: seq<string>)
    requires forall j | 0 <= j < |names| :: names[j] in lists
    ensures |r| == |names|
  {
    seq(|names|, j requires 0 <= j < |names| => Cell(lists[names[j]], i))
  }

  /** The rows of a metric, by indexed access. */
  ghost function MetricRows(keys: seq<string>, values: seq<string>, lists: map<string, seq<string>>,
                            xs: seq<string>): seq<Row> {
    if lists == map[] then SameRows(keys, values, xs)
    else ExpandedRows(keys, values, lists)
  }

  /** One row per expanded value, or a single one, all with the same labels. */
  function SameRows(keys: seq<string>, values: seq<string>, xs: seq<string>): seq<Row> {
    seq(if xs == [] then 1 else |xs|, i => Row(keys, values))
  }

  ghost function ExpandedRows(keys: seq<string>, values: seq<string>, lists: map<string, seq<string>>): seq<Row> {
    RowsOver(SortedNames(lists.Keys), keys, values, lists)
  }

  function RowsOver(names: seq<string>, keys: seq<string>, values: seq<string>,
                    lists: map<string, seq<string>>): seq<Row>
    requires forall i | 0 <= i < |names| :: names[i] in lists
  {
    seq(MaxLen(names, lists), i requires 0 <= i => Row(keys + names, values + Cells(names, lists, i)))
  }

  function ValueFor(xs: seq<string>, value: string, i: nat): string {
    if i < |xs| then xs[i] else value
  }

  function Tuples(rows: seq<Row>, xs: seq<string>): seq<(Row, string)> {
    seq(|rows|, i requires 0 <= i < |rows| => (rows[i], ValueFor(xs, "", i)))
  }

  lemma {:induction false} MaxLenOf(names: seq<string>, lists: map<string, seq<string>>, n: nat)
    requires names != [] && forall i | 0 <= i < |names| :: names[i] in lists && |lists[names[i]]| == n
    ensures MaxLen(names, lists) == n
  {
    if |names| > 1 {
      MaxLenOf(names[..|names| - 1], lists, n);
    }
  }

  /** Label lists and values of one length n come out as exactly the n original
      tuples (L1[i], ..., Lm[i], V[i]), ordered by the anchor label, however the
      unstable sort broke ties. */
  lemma PositionalCorrespondence(keys: seq<string>, values: seq<string>, lists: map<string, seq<string>>,
                                 xs: seq<string>, order: seq<nat>)
    requires lists != map[] && (forall k | k in lists :: |lists[k]| == |xs|)
    requires AnchorOrder(lists, xs, order)
    ensures var lists', xs' := CoSortedLists(lists, xs, order), CoSortedValues(lists, xs, order);
            var before, after := ExpandedRows(keys, values, lists), ExpandedRows(keys, values, lists');
            && |before| == |after| == |xs| == |xs'|
            && multiset(Tuples(after, xs')) == multiset(Tuples(before, xs))
            && lists'.Keys == lists.Keys && Sorted(lists'[Anchor(lists.Keys)])
    ensures forall i | 0 <= i < |xs| ::
              var names := SortedNames(lists.Keys);
              Tuples(ExpandedRows(keys, values, lists), xs)[i]
                  == (Row(keys + names, values + Cells(names, lists, i)), xs[i])
  {
    hide Sorted, Anchor, IsPermutation, RowsOver, SortedEnumeration;
    var names := SortedNames(lists.Keys);
    assert Sortable(lists, xs);
    var lists', xs' := CoSortedLists(lists, xs, order), CoSortedValues(lists, xs, order);
    assert lists'.Keys == lists.Keys;
    EnumerationFacts(names, lists.Keys);
    assert |names| != 0;
    RowsPermuted(names, keys, values, lists, lists', xs, order);
  }

  lemma RowsPermuted(names: seq<string>, keys: seq<string>, values: seq<string>, lists: map<string, seq<string>>,
                     lists': map<string, seq<string>>, xs: seq<string>, order: seq<nat>)
    requires names != [] && IsPermutation(order, |xs|) && Below(order, |xs|) && |order| == |xs|
    requires forall i | 0 <= i < |names| ::
               names[i] in lists && names[i] in lists' && |lists[names[i]]| == |xs|
                   && lists'[names[i]] == Apply(lists[names[i]], order)
    ensures var before, after := RowsOver(names, keys, values, lists), RowsOver(names, keys, values, lists');
            && |before| == |after| == |xs|
            && multiset(Tuples(after, Apply(xs, order))) == multiset(Tuples(before, xs))
    ensures forall i | 0 <= i < |xs| ::
              Tuples(RowsOver(names, keys, values, lists), xs)[i]
                  == (Row(keys + names, values + Cells(names, lists, i)), xs[i])
  {
    hide IsPermutation;
    MaxLenOf(names, lists, |xs|);
    MaxLenOf(names, lists', |xs|);
    var before := Tuples(RowsOver(names, keys, values, lists), xs);
    var after := Tuples(RowsOver(names, keys, values, lists'), Apply(xs, order));
    PermutedMultiset(before, order);
    forall i | 0 <= i < |xs| ensures after[i] == before[order[i]] {
      assert Cells(names, lists', i) == Cells(names, lists, order[i]);
    }
    assert after == Apply(before, order);
  }

  // ---- co-sorting in place ---------------------------------------------------------------------

  /** Picks the smallest key with the running-minimum loop of the source. */
  method FindAnchor(lists: map<string, Slice>) returns (sortKey: string)
    requires lists != map[] && "" !in lists
    ensures sortKey == Anchor(lists.Keys)
  {
    sortKey := "";
    var rest := lists.Keys;
    while rest != {}
      invariant rest <= lists.Keys
      invariant sortKey == "" <==> rest == lists.Keys
      invariant sortKey != "" ==> IsLeast(sortKey, lists.Keys - rest)
      decreases rest
    {
      var k :| k in rest;
      ghost var done := lists.Keys - rest;
      LeTotal(k, k);
      LeTotal(k, sortKey);
      if sortKey == "" || (Le(k, sortKey) && k != sortKey) {
        forall j | j in done && sortKey != "" ensures Le(k, j) { LeTransitive(k, sortKey, j); }
        sortKey := k;
      }
      rest := rest - {k};
      assert lists.Keys - rest == done + {k};
    }
    assert lists.Keys - rest == lists.Keys;
    AnchorUnique(sortKey, lists.Keys);
  }

  /** All lists but the anchor, with their names, then the values. */
  ghost predicate Parallels(lists: map<string, Slice>, sortKey: string, names: seq<string>, parallel: seq<Slice>,
                            done: set<string>) {
    && |names| == |parallel| && Distinct(names)
    && (forall i | 0 <= i < |names| ::
          names[i] in lists && names[i] in done && names[i] != sortKey && parallel[i] == lists[names[i]])
    && (forall k | k in done && k in lists && k != sortKey :: k in names)
  }

  method CollectParallels(lists: map<string, Slice>, sortKey: string)
      returns (parallel: seq<Slice>, ghost names: seq<string>)
    ensures Parallels(lists, sortKey, names, parallel, lists.Keys)
  {
    parallel, names := [], [];
    var rest := lists.Keys;
    while rest != {}
      invariant rest <= lists.Keys && Parallels(lists, sortKey, names, parallel, lists.Keys - rest)
      decreases rest
    {
      var k :| k in rest;
      if k != sortKey {
        parallel, names := parallel + [lists[k]], names + [k];
      }
      rest := rest - {k};
    }
    assert lists.Keys - rest == lists.Keys;
  }

  /** Takes the values out of the expanded set and co-sorts them with the label
      lists, in place. */
  method ExtractAndSortExpandedMetricValues(expanded: map<string, Slice>)
    returns (values: Slice, lists: map<string, Slice>, ghost order: seq<nat>)
    requires Separate(expanded) && "" !in expanded
    modifies SliceData(expanded)
    ensures lists == expanded - {SENTINEL}
    ensures if SENTINEL in expanded then values == expanded[SENTINEL] else values.Valid() && fresh(values.data)
    ensures var lists0 := old(Contents(expanded - {SENTINEL}));
            var values0 := if SENTINEL in expanded then old(expanded[SENTINEL].Elems()) else [];
            CoSorted(lists0, values0, order, Contents(lists), values.Elems())
  {
    lists := expanded - {SENTINEL};
    if SENTINEL in expanded {
      values := expanded[SENTINEL];
    } else {
      values := Nil();
    }
    order := SortExtracted(lists, values);
  }

  method SortExtracted(lists: map<string, Slice>, values: Slice) returns (ghost order: seq<nat>)
    requires Separate(lists) && "" !in lists
    requires values.Valid() && forall k | k in lists :: lists[k].data != values.data
    modifies SliceData(lists), values.data
    ensures CoSorted(old(Contents(lists)), old(values.Elems()), order, Contents(lists), values.Elems())
  {
    hide Anchor, CoSorted;
    ghost var lists0, values0 := Contents(lists), values.Elems();
    assert lists0.Keys == lists.Keys;
    order := [];
    if |lists| == 0 {
      assert lists == map[] && lists0 == map[];
      NotCoSorted(lists0, values0);
      return;
    }
    var sortKey := FindAnchor(lists);
    if values.Len() != lists[sortKey].Len() {
      NotCoSorted(lists0, values0);
      return;
    }
    order := CoSort(lists, values, sortKey);
  }

  /** order accounts for what became of the lists and the values. */
  ghost predicate CoSorted(lists: map<string, seq<string>>, xs: seq<string>, order: seq<nat>,
                           lists': map<string, seq<string>>, xs': seq<string>)
  {
    && AnchorOrder(lists, xs, order)
    && lists' == CoSortedLists(lists, xs, order)
    && xs' == CoSortedValues(lists, xs, order)
  }

  lemma NotCoSorted(lists: map<string, seq<string>>, xs: seq<string>)
    requires !Sortable(lists, xs)
    ensures CoSorted(lists, xs, [], lists, xs)
  {
  }

  lemma CoSortedBy(lists: map<string, seq<string>>, xs: seq<string>, order: seq<nat>,
                   lists': map<string, seq<string>>, xs': seq<string>)
    requires lists' != map[] && lists'.Keys == lists.Keys && IsPermutation(order, |xs|)
    requires Below(order, |order|) && |order| == |xs| == |lists[Anchor(lists.Keys)]|
    requires forall k | k in lists :: lists'[k] == Permuted(lists[k], order)
    requires Sorted(lists'[Anchor(lists.Keys)]) && xs' == Permuted(xs, order)
    ensures CoSorted(lists, xs, order, lists', xs')
  {
    hide Anchor, Sorted, IsPermutation;
    assert Sortable(lists, xs);
  }

  method CoSort(lists: map<string, Slice>, values: Slice, sortKey: string) returns (ghost order: seq<nat>)
    requires Separate(lists) && values.Valid() && forall k | k in lists :: lists[k].data != values.data
    requires lists != map[] && sortKey == Anchor(lists.Keys) && lists[sortKey].Len() == values.Len()
    modifies SliceData(lists), values.data
    ensures CoSorted(old(Contents(lists)), old(values.Elems()), order, Contents(lists), values.Elems())
  {
    hide Anchor, Sorted, IsPermutation, Permuted, CoSorted;
    ghost var lists0, values0 := Contents(lists), values.Elems();
    assert lists0.Keys == lists.Keys;
    var parallel;
    ghost var names;
    parallel, names := CollectParallels(lists, sortKey);
    order := SortAll(lists, values, sortKey, parallel, names);
    CoSortedBy(lists0, values0, order, Contents(lists), values.Elems());
  }

  method SortAll(lists: map<string, Slice>, values: Slice, sortKey: string, parallel: seq<Slice>,
                 ghost names: seq<string>)
    returns (ghost order: seq<nat>)
    requires Separate(lists) && values.Valid() && forall k | k in lists :: lists[k].data != values.data
    requires sortKey in lists && Parallels(lists, sortKey, names, parallel, lists.Keys)
    modifies SliceData(lists), values.data
    ensures IsPermutation(order, lists[sortKey].Len()) && |order| == lists[sortKey].Len() && Below(order, |order|)
    ensures forall k | k in lists :: lists[k].Elems() == Permuted(old(lists[k].Elems()), order)
    ensures Sorted(lists[sortKey].Elems()) && values.Elems() == Permuted(old(values.Elems()), order)
  {
    hide Sorted, IsPermutation, Permuted;
    var all := parallel + [values];
    assert all[|parallel|] == values && forall i | 0 <= i < |parallel| :: all[i] == lists[names[i]];
    assert Unaliased(lists[sortKey], all);
    order := SortLabels(lists[sortKey], all);
    PermutedSame(old(lists[sortKey].Elems()), order);
    forall k | k in lists && k != sortKey ensures lists[k].Elems() == Permuted(old(lists[k].Elems()), order) {
      var i :| 0 <= i < |names| && names[i] == k;
      assert all[i].Elems() == Permuted(old(all[i].Elems()), order);
    }
  }

  lemma PermutedSame(s: seq<string>, order: seq<nat>)
    requires |s| == |order| && Below(order, |order|)
    ensures Permuted(s, order) == Apply(s, order)
  {
  }
}
