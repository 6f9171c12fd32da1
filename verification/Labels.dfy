/** Resolving the labels of a metric into static key/value pairs and expanded
    lists (internal/family.go, resolveLabels). */
module Labels {
  import opened Basics
  import opened Resources
  import opened Resolvers
  import opened Collect
  import opened Slices
  import opened LabelSorting

  type Pair = (string, string)

  // ---- what a label contributes --------------------------------------------------------

  /** listIndexRegex `.+#\d+` matches somewhere in the key. */
  predicate ListIndexed(k: string) {
    exists j | 0 < j < |k| - 1 :: k[j] == '#' && k[j - 1] != '\n' && IsDigit(k[j + 1])
  }

  /** Each label's expression may resolve as rs says; every label is resolved
      anew, so equal expressions need not give equal results. */
  ghost predicate AllResolve(env: Env, rk: ResolverKind, labels: seq<Label>, o: Object, rs: seq<Resolution>) {
    && |rs| == |labels|
    && forall i | 0 <= i < |labels| :: env.MayResolve(rk, labels[i].value, o.content, rs[i])
  }

  /** The expression resolved to a single value. */
  predicate IsScalar(lb: Label, r: Resolution) {
    lb.value in r
  }

  /** The label key of a map entry; names starting with "_" expand the map. */
  function EntryKey(env: Env, lb: Label, k: string): string {
    if lb.name[0] == '_' then env.sanitize(k) else env.sanitize(lb.name + k)
  }

  function EntryPairs(env: Env, lb: Label, r: Resolution, k: string): multiset<Pair>
    requires k in r
  {
    if ListIndexed(k) then multiset{} else multiset{(EntryKey(env, lb, k), r[k])}
  }

  ghost function MapPairs(env: Env, lb: Label, r: Resolution, ks: set<string>): multiset<Pair>
    requires ks <= r.Keys
  {
    if ks == {} then multiset{}
    else
      var k :| k in ks;
      EntryPairs(env, lb, r, k) + MapPairs(env, lb, r, ks - {k})
  }

  lemma {:induction false} MapPairsRemove(env: Env, lb: Label, r: Resolution, ks: set<string>, k: string)
    requires k in ks && ks <= r.Keys
    ensures MapPairs(env, lb, r, ks) == EntryPairs(env, lb, r, k) + MapPairs(env, lb, r, ks - {k})
  {
    hide EntryPairs;
    var j :| j in ks && MapPairs(env, lb, r, ks) == EntryPairs(env, lb, r, j) + MapPairs(env, lb, r, ks - {j});
    if j != k {
      MapPairsRemove(env, lb, r, ks - {j}, k);
      MapPairsRemove(env, lb, r, ks - {k}, j);
      assert ks - {j} - {k} == ks - {k} - {j};
    }
  }

  ghost function LabelPairs(env: Env, lb: Label, r: Resolution): multiset<Pair> {
    if IsScalar(lb, r) then multiset{(env.sanitize(lb.name), r[lb.value])}
    else MapPairs(env, lb, r, r.Keys)
  }

  /** All static pairs of a metric, with multiplicity. */
  ghost function StaticPairs(env: Env, labels: seq<Label>, rs: seq<Resolution>): multiset<Pair>
    requires |rs| == |labels|
  {
    if labels == [] then multiset{}
    else
      var n := |labels| - 1;
      StaticPairs(env, labels[..n], rs[..n]) + LabelPairs(env, labels[n], rs[n])
  }

  /** runs[i] is what list collection may return for label i; which one depends
      on map order only when two keys carry the same index. */
  ghost predicate LabelRuns(labels: seq<Label>, rs: seq<Resolution>, runs: seq<seq<string>>) {
    && |runs| == |rs| == |labels|
    && forall i | 0 <= i < |labels| :: if IsScalar(labels[i], rs[i]) then runs[i] == [] else IsRun(rs[i], runs[i])
  }

  function Extend(lists: map<string, seq<string>>, name: string, run: seq<string>): map<string, seq<string>> {
    lists[name := (if name in lists then lists[name] else []) + run]
  }

  /** The expanded lists: runs of equally named labels are concatenated, and a
      label without list entries still leaves an empty list behind. */
  function Expanded(env: Env, labels: seq<Label>, rs: seq<Resolution>, runs: seq<seq<string>>): map<string, seq<string>>
    requires |runs| == |rs| == |labels|
  {
    if labels == [] then map[]
    else
      var n := |labels| - 1;
      var lists := Expanded(env, labels[..n], rs[..n], runs[..n]);
      if IsScalar(labels[n], rs[n]) then lists else Extend(lists, env.sanitize(labels[n].name), runs[n])
  }

  function Zip(keys: seq<string>, values: seq<string>): (r: seq<Pair>)
    requires |keys| == |values|
    ensures |r| == |keys|
  {
    seq(|keys|, i requires 0 <= i < |keys| => (keys[i], values[i]))
  }

  /** keys and values are a legal outcome for the static labels. */
  ghost predicate StaticLabels(env: Env, labels: seq<Label>, rs: seq<Resolution>, keys: seq<string>,
                               values: seq<string>)
    requires |rs| == |labels|
  {
    |keys| == |values| && Sorted(keys) && multiset(Zip(keys, values)) == StaticPairs(env, labels, rs)
  }

  // ---- static labels are deterministic ------------------------------------------------------

  lemma {:induction false} KeysOfPairs(a: seq<Pair>, b: seq<Pair>)
    requires multiset(a) == multiset(b)
    ensures multiset(Firsts(a)) == multiset(Firsts(b))
    decreases |a|
  {
    if a == [] {
      assert |multiset(b)| == 0;
    } else {
      var k := CancelHead(a, b);
      KeysOfPairs(a[1..], b[..k] + b[k+1..]);
      SplitHead(Firsts(a));
      assert Firsts(a)[1..] == Firsts(a[1..]);
      SplitAt(Firsts(b), k);
      assert Firsts(b)[..k] + Firsts(b)[k+1..] == Firsts(b[..k] + b[k+1..]);
    }
  }

  lemma SameKeys(keys: seq<string>, values: seq<string>, keys': seq<string>, values': seq<string>)
    requires |keys| == |values| && |keys'| == |values'| && Sorted(keys) && Sorted(keys')
    requires multiset(Firsts(Zip(keys, values))) == multiset(Firsts(Zip(keys', values')))
    ensures keys == keys'
  {
    hide Sorted;
    assert Firsts(Zip(keys, values)) == keys && Firsts(Zip(keys', values')) == keys';
    SortedUnique(keys, keys');
  }

  function Firsts(ps: seq<Pair>): (r: seq<string>)
    ensures |r| == |ps|
  {
    seq(|ps|, i requires 0 <= i < |ps| => ps[i].0)
  }

  lemma SamePairs(keys: seq<string>, values: seq<string>, keys': seq<string>, values': seq<string>)
    requires |keys| == |values| && |keys'| == |values'| && Sorted(keys) && Sorted(keys')
    requires multiset(Zip(keys, values)) == multiset(Zip(keys', values'))
    ensures keys == keys'
    ensures Distinct(keys) ==> values == values'
  {
    hide Sorted;
    KeysOfPairs(Zip(keys, values), Zip(keys', values'));
    SameKeys(keys, values, keys', values');
    if Distinct(keys) {
      forall i | 0 <= i < |keys| ensures values[i] == values'[i] {
        assert Zip(keys, values)[i] in multiset(Zip(keys, values));
        assert Zip(keys, values)[i] in Zip(keys', values');
        var j :| 0 <= j < |keys'| && Zip(keys', values')[j] == Zip(keys, values)[i];
        assert j == i;
      }
    }
  }

  // ---- the loop -----------------------------------------------------------------------------------

  function SliceData(lists: map<string, Slice>): set<array<string>> {
    set k | k in lists :: lists[k].data
  }

  /** Every list has its own backing array. */
  ghost predicate Separate(lists: map<string, Slice>) {
    && (forall k | k in lists :: lists[k].Valid())
    && (forall j, k | j in lists && k in lists && j != k :: lists[j].data != lists[k].data)
  }

  ghost function Contents(lists: map<string, Slice>): map<string, seq<string>>
    requires forall k | k in lists :: lists[k].Valid()
    reads SliceData(lists)
  {
    map k | k in lists :: lists[k].Elems()
  }

  /** Key and value buffers of equal length, apart from each other. */
  ghost predicate Paired(keys: Slice, values: Slice) {
    keys.Valid() && values.Valid() && keys.data != values.data && keys.Len() == values.Len()
  }

  ghost predicate Apart(keys: Slice, values: Slice, lists: map<string, Slice>) {
    && Paired(keys, values) && Separate(lists)
    && forall k | k in lists :: lists[k].data != keys.data && lists[k].data != values.data
  }

  method AppendPair(keys: Slice, values: Slice, key: string, value: string) returns (keys': Slice, values': Slice)
    requires Paired(keys, values)
    modifies keys.data, values.data
    ensures Paired(keys', values')
    ensures keys'.data == keys.data || fresh(keys'.data)
    ensures values'.data == values.data || fresh(values'.data)
    ensures Zip(keys'.Elems(), values'.Elems()) == old(Zip(keys.Elems(), values.Elems())) + [(key, value)]
  {
    values' := Append(values, value);
    keys' := Append(keys, key);
  }

  /** "Process non-list entries", in any order. */
  method AppendEntries(env: Env, lb: Label, r: Resolution, keys: Slice, values: Slice)
    returns (keys': Slice, values': Slice)
    requires Paired(keys, values)
    modifies keys.data, values.data
    ensures Paired(keys', values')
    ensures keys'.data == keys.data || fresh(keys'.data)
    ensures values'.data == values.data || fresh(values'.data)
    ensures multiset(Zip(keys'.Elems(), values'.Elems()))
         == multiset(old(Zip(keys.Elems(), values.Elems()))) + MapPairs(env, lb, r, r.Keys)
  {
    hide MapPairs, ListIndexed, EntryKey;
    ghost var before := multiset(Zip(keys.Elems(), values.Elems()));
    keys', values' := keys, values;
    var rest := r.Keys;
    while rest != {}
      invariant rest <= r.Keys && Paired(keys', values')
      invariant keys'.data == keys.data || fresh(keys'.data)
      invariant values'.data == values.data || fresh(values'.data)
      invariant multiset(Zip(keys'.Elems(), values'.Elems())) + MapPairs(env, lb, r, rest)
             == before + MapPairs(env, lb, r, r.Keys)
      decreases rest
    {
      var k :| k in rest;
      MapPairsRemove(env, lb, r, rest, k);
      rest := rest - {k};
      if ListIndexed(k) {
        continue;
      }
      keys', values' := AppendPair(keys', values', EntryKey(env, lb, k), r[k]);
    }
    NoPairs(env, lb, r);
  }

  lemma NoPairs(env: Env, lb: Label, r: Resolution)
    ensures MapPairs(env, lb, r, {}) == multiset{}
  {
  }

  /** Appending static pairs leaves the expanded lists alone. */
  method ResolveEntries(env: Env, lb: Label, r: Resolution, keys: Slice, values: Slice, ghost lists: map<string, Slice>)
    returns (keys': Slice, values': Slice)
    requires Apart(keys, values, lists)
    modifies keys.data, values.data
    ensures Apart(keys', values', lists) && Contents(lists) == old(Contents(lists))
    ensures keys'.data == keys.data || fresh(keys'.data)
    ensures values'.data == values.data || fresh(values'.data)
    ensures multiset(Zip(keys'.Elems(), values'.Elems()))
         == multiset(old(Zip(keys.Elems(), values.Elems()))) + MapPairs(env, lb, r, r.Keys)
  {
    hide MapPairs;
    keys', values' := AppendEntries(env, lb, r, keys, values);
  }

  /** A label whose expression gave one value. */
  method ResolveScalar(key: string, value: string, keys: Slice, values: Slice, ghost lists: map<string, Slice>)
    returns (keys': Slice, values': Slice)
    requires Apart(keys, values, lists)
    modifies keys.data, values.data
    ensures Apart(keys', values', lists) && Contents(lists) == old(Contents(lists))
    ensures keys'.data == keys.data || fresh(keys'.data)
    ensures values'.data == values.data || fresh(values'.data)
    ensures multiset(Zip(keys'.Elems(), values'.Elems()))
         == multiset(old(Zip(keys.Elems(), values.Elems()))) + multiset{(key, value)}
  {
    keys', values' := AppendPair(keys, values, key, value);
  }

  /** What one more label adds. */
  ghost predicate LabelAdds(env: Env, rk: ResolverKind, lb: Label, o: Object, r: Resolution, run: seq<string>,
                            pairs: multiset<Pair>, lists: map<string, seq<string>>,
                            pairs': multiset<Pair>, lists': map<string, seq<string>>) {
    && env.MayResolve(rk, lb.value, o.content, r)
    && pairs' == pairs + LabelPairs(env, lb, r)
    && if IsScalar(lb, r) then run == [] && lists' == lists
       else IsRun(r, run) && lists' == Extend(lists, env.sanitize(lb.name), run)
  }

  /** The body of the loop over labels. */
  method ResolveLabel(env: Env, rk: ResolverKind, lb: Label, o: Object, keys: Slice, values: Slice,
                      lists: map<string, Slice>)
    returns (keys': Slice, values': Slice, lists': map<string, Slice>, ghost r: Resolution, ghost run: seq<string>)
    requires env.Valid() && Apart(keys, values, lists)
    modifies keys.data, values.data, SliceData(lists)
    ensures Apart(keys', values', lists')
    ensures keys'.data == keys.data || fresh(keys'.data)
    ensures values'.data == values.data || fresh(values'.data)
    ensures forall d | d in SliceData(lists') :: d in SliceData(lists) || fresh(d)
    ensures LabelAdds(env, rk, lb, o, r, run, multiset(old(Zip(keys.Elems(), values.Elems()))), old(Contents(lists)),
                      multiset(Zip(keys'.Elems(), values'.Elems())), Contents(lists'))
  {
    hide MapPairs, IsRun, Extend, Zip, Contents, Separate, Paired, Env.MayResolve;
    keys', values', lists', run := keys, values, lists, [];
    var resolved := Resolve(env, rk, lb.value, o.content);
    r := resolved;
    if lb.value in resolved {
      keys', values' := ResolveScalar(env.sanitize(lb.name), resolved[lb.value], keys, values, lists);
    } else {
      keys', values', lists', run := ResolveComposite(env, lb, resolved, keys, values, lists);
    }
  }

  /** A label whose expression gave a list, a map or nothing. */
  method ResolveComposite(env: Env, lb: Label, r: Resolution, keys: Slice, values: Slice, lists: map<string, Slice>)
    returns (keys': Slice, values': Slice, lists': map<string, Slice>, ghost run: seq<string>)
    requires |r| < TWO_63 && Apart(keys, values, lists)
    modifies keys.data, values.data, SliceData(lists)
    ensures Apart(keys', values', lists')
    ensures keys'.data == keys.data || fresh(keys'.data)
    ensures values'.data == values.data || fresh(values'.data)
    ensures forall d | d in SliceData(lists') :: d in SliceData(lists) || fresh(d)
    ensures multiset(Zip(keys'.Elems(), values'.Elems()))
         == multiset(old(Zip(keys.Elems(), values.Elems()))) + MapPairs(env, lb, r, r.Keys)
    ensures IsRun(r, run)
    ensures Contents(lists') == Extend(old(Contents(lists)), env.sanitize(lb.name), run)
  {
    hide MapPairs, IsRun, Extend, Zip;
    var collected := CollectIndexedResolvedValues(r);
    run := collected;
    assert keys.Elems() == old(keys.Elems()) && values.Elems() == old(values.Elems());
    lists' := AppendToList(lists, env.sanitize(lb.name), collected);
    assert keys.Elems() == old(keys.Elems()) && values.Elems() == old(values.Elems());
    assert Apart(keys, values, lists') by {
      forall k | k in lists' ensures lists'[k].data != keys.data && lists'[k].data != values.data {
        assert lists'[k].data in SliceData(lists');
      }
    }
    keys', values' := ResolveEntries(env, lb, r, keys, values, lists');
  }

  /** expanded[name] = append(expanded[name], run...) */
  method AppendToList(lists: map<string, Slice>, name: string, run: seq<string>) returns (lists': map<string, Slice>)
    requires Separate(lists)
    modifies SliceData(lists)
    ensures Separate(lists')
    ensures forall d | d in SliceData(lists') :: d in SliceData(lists) || fresh(d)
    ensures Contents(lists') == Extend(old(Contents(lists)), name, run)
  {
    var list: Slice;
    if name in lists {
      list := lists[name];
    } else {
      list := Nil();
    }
    list := AppendAll(list, run);
    lists' := lists[name := list];
  }

  /** Everything the labels came to: their resolutions and runs, and the static
      pairs and lists made of these. */
  ghost predicate Collected(env: Env, rk: ResolverKind, labels: seq<Label>, o: Object, rs: seq<Resolution>,
                            runs: seq<seq<string>>,
                            pairs: multiset<Pair>, lists: map<string, seq<string>>) {
    && AllResolve(env, rk, labels, o, rs) && LabelRuns(labels, rs, runs)
    && pairs == StaticPairs(env, labels, rs) && lists == Expanded(env, labels, rs, runs)
  }

  method ResolveLabels(env: Env, rk: ResolverKind, labels: seq<Label>, o: Object)
    returns (keys: Slice, values: Slice, lists: map<string, Slice>, ghost rs: seq<Resolution>,
        ghost runs: seq<seq<string>>)
    requires env.Valid()
    ensures Apart(keys, values, lists)
    ensures fresh(keys.data) && fresh(values.data) && forall d | d in SliceData(lists) :: fresh(d)
    ensures AllResolve(env, rk, labels, o, rs)
    ensures StaticLabels(env, labels, rs, keys.Elems(), values.Elems())
    ensures |runs| == |labels| && LabelRuns(labels, rs, runs)
    ensures Contents(lists) == Expanded(env, labels, rs, runs)
  {
    hide Collected, LabelAdds, LabelPairs;
    keys := Nil();
    values := Nil();
    lists, rs, runs := map[], [], [];
    NoLabels(env, rk, o);
    for i := 0 to |labels|
      invariant Apart(keys, values, lists)
      invariant fresh(keys.data) && fresh(values.data) && forall d | d in SliceData(lists) :: fresh(d)
      invariant Collected(env, rk, labels[..i], o, rs, runs, multiset(Zip(keys.Elems(), values.Elems())),
                  Contents(lists))
    {
      ghost var r, run;
      ghost var pairs, contents := multiset(Zip(keys.Elems(), values.Elems())), Contents(lists);
      keys, values, lists, r, run := ResolveLabel(env, rk, labels[i], o, keys, values, lists);
      OneMoreLabel(env, rk, labels[..i], labels[i], o, rs, r, runs, run, pairs, contents,
                   multiset(Zip(keys.Elems(), values.Elems())), Contents(lists));
      assert labels[..i + 1] == labels[..i] + [labels[i]];
      rs, runs := rs + [r], runs + [run];
    }
    assert labels[..|labels|] == labels;
    AllCollected(env, rk, labels, o, rs, runs, multiset(Zip(keys.Elems(), values.Elems())), Contents(lists));
    SortStatic(env, labels, rs, keys, values);
  }

  lemma AllCollected(env: Env, rk: ResolverKind, labels: seq<Label>, o: Object, rs: seq<Resolution>,
                     runs: seq<seq<string>>,
                     pairs: multiset<Pair>, lists: map<string, seq<string>>)
    requires Collected(env, rk, labels, o, rs, runs, pairs, lists)
    ensures AllResolve(env, rk, labels, o, rs) && |runs| == |labels| && LabelRuns(labels, rs, runs)
    ensures pairs == StaticPairs(env, labels, rs) && lists == Expanded(env, labels, rs, runs)
  {
  }

  method SortStatic(env: Env, labels: seq<Label>, ghost rs: seq<Resolution>, keys: Slice, values: Slice)
    requires Paired(keys, values) && |rs| == |labels|
    requires multiset(Zip(keys.Elems(), values.Elems())) == StaticPairs(env, labels, rs)
    modifies keys.data, values.data
    ensures StaticLabels(env, labels, rs, keys.Elems(), values.Elems())
  {
    hide StaticPairs, Zip, Sorted, IsPermutation;
    ghost var ks, vs := keys.Elems(), values.Elems();
    var parallel := [values];
    ghost var order := SortLabels(keys, parallel);
    assert values == parallel[0];
    SortedPairs(ks, vs, order);
  }

  lemma SortedPairs(keys: seq<string>, values: seq<string>, order: seq<nat>)
    requires |keys| == |values| && IsPermutation(order, |keys|)
    ensures |order| == |keys| && Below(order, |keys|) && Permuted(values, order) == Apply(values, order)
    ensures multiset(Zip(Apply(keys, order), Apply(values, order))) == multiset(Zip(keys, values))
  {
    PermutationFacts(order, |keys|);
    PermutedMultiset(Zip(keys, values), order);
    assert Zip(Apply(keys, order), Apply(values, order)) == Apply(Zip(keys, values), order);
  }

  lemma NoLabels(env: Env, rk: ResolverKind, o: Object)
    ensures Collected(env, rk, [], o, [], [], multiset{}, map[])
  {
  }

  lemma OneMoreLabel(env: Env, rk: ResolverKind, labels: seq<Label>, lb: Label, o: Object,
                     rs: seq<Resolution>, r: Resolution, runs: seq<seq<string>>, run: seq<string>,
                     pairs: multiset<Pair>, lists: map<string, seq<string>>,
                     pairs': multiset<Pair>, lists': map<string, seq<string>>)
    requires Collected(env, rk, labels, o, rs, runs, pairs, lists)
    requires LabelAdds(env, rk, lb, o, r, run, pairs, lists, pairs', lists')
    ensures Collected(env, rk, labels + [lb], o, rs + [r], runs + [run], pairs', lists')
  {
    hide LabelPairs, IsRun, Env.MayResolve, Extend;
    var n := |labels|;
    assert (labels + [lb])[..n] == labels && (labels + [lb])[n] == lb;
    assert (runs + [run])[..n] == runs && (rs + [r])[..n] == rs;
  }
}
