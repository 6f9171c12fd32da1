/** Which label names the rows of a metric carry: those its labels give, static or
    expanded, and no others. */
module LabelKeys {
  import opened Basics
  import opened Resources
  import opened Labels
  import opened Expansion
  import opened Family

  /** The names one label gives when its expression resolves to r. A label that is
      not scalar has an expanded list, if only an empty one. */
  function GivenBy(env: Env, lb: Label, r: Resolution): set<string> {
    {env.sanitize(lb.name)} + if IsScalar(lb, r) then {} else EntryKeys(env, lb, r, r.Keys)
  }

  function EntryKeys(env: Env, lb: Label, r: Resolution, ks: set<string>): set<string> {
    set k | k in ks && !ListIndexed(k) :: EntryKey(env, lb, k)
  }

  function Given(env: Env, labels: seq<Label>, rs: seq<Resolution>): set<string>
    requires |rs| == |labels|
  {
    set i, k | 0 <= i < |labels| && k in GivenBy(env, labels[i], rs[i]) :: k
  }

  function KeySet(keys: seq<string>): set<string> {
    set i | 0 <= i < |keys| :: keys[i]
  }

  // ---- static keys -------------------------------------------------------------------------

  function PairKeys(ps: multiset<Pair>): set<string> {
    set p | p in ps :: p.0
  }

  lemma {:induction false} MapPairKeys(env: Env, lb: Label, r: Resolution, ks: set<string>)
    requires ks <= r.Keys
    ensures PairKeys(MapPairs(env, lb, r, ks)) == EntryKeys(env, lb, r, ks)
    decreases ks
  {
    hide MapPairs, EntryPairs, PairKeys, ListIndexed, EntryKey;
    if ks == {} {
      NoPairs(env, lb, r);
      NoPairKeys();
    } else {
      var k :| k in ks;
      MapPairKeys(env, lb, r, ks - {k});
      MapPairsRemove(env, lb, r, ks, k);
      PairKeysBoth(EntryPairs(env, lb, r, k), MapPairs(env, lb, r, ks - {k}));
      OneEntryKey(env, lb, r, k);
      assert EntryKeys(env, lb, r, ks) == EntryKeys(env, lb, r, {k}) + EntryKeys(env, lb, r, ks - {k});
    }
  }

  lemma NoPairKeys()
    ensures PairKeys(multiset{}) == {}
  {
  }

  lemma PairKeysBoth(a: multiset<Pair>, b: multiset<Pair>)
    ensures PairKeys(a + b) == PairKeys(a) + PairKeys(b)
  {
  }

  lemma OneEntryKey(env: Env, lb: Label, r: Resolution, k: string)
    requires k in r
    ensures PairKeys(EntryPairs(env, lb, r, k)) == EntryKeys(env, lb, r, {k})
  {
    hide ListIndexed, EntryKey;
    if !ListIndexed(k) {
      assert (EntryKey(env, lb, k), r[k]) in EntryPairs(env, lb, r, k);
    }
  }

  /** The keys of the static pairs and the names of the expanded lists together. */
  lemma {:induction false} KeysTogether(env: Env, labels: seq<Label>, rs: seq<Resolution>, runs: seq<seq<string>>)
    requires |runs| == |rs| == |labels|
    ensures PairKeys(StaticPairs(env, labels, rs)) + Expanded(env, labels, rs, runs).Keys == Given(env, labels, rs)
  {
    hide LabelPairs, GivenBy, IsScalar;
    if labels == [] {
      assert Given(env, labels, rs) == {};
    } else {
      var n := |labels| - 1;
      KeysTogether(env, labels[..n], rs[..n], runs[..n]);
      LabelKeysAre(env, labels[n], rs[n]);
      OneMoreGiven(env, labels, rs);
      var before, last := StaticPairs(env, labels[..n], rs[..n]), LabelPairs(env, labels[n], rs[n]);
      PairKeysBoth(before, last);
    }
  }

  lemma LabelKeysAre(env: Env, lb: Label, r: Resolution)
    ensures PairKeys(LabelPairs(env, lb, r)) + (if IsScalar(lb, r) then {} else {env.sanitize(lb.name)})
         == GivenBy(env, lb, r)
  {
    hide MapPairs, EntryKeys;
    MapPairKeys(env, lb, r, r.Keys);
    if IsScalar(lb, r) {
      assert PairKeys(multiset{(env.sanitize(lb.name), r[lb.value])}) == {env.sanitize(lb.name)};
    }
  }

  lemma OneMoreGiven(env: Env, labels: seq<Label>, rs: seq<Resolution>)
    requires |rs| == |labels| && labels != []
    ensures var n := |labels| - 1;
            Given(env, labels, rs) == Given(env, labels[..n], rs[..n]) + GivenBy(env, labels[n], rs[n])
  {
    hide GivenBy;
    var n := |labels| - 1;
    forall k ensures k in Given(env, labels, rs) <==>
                     k in Given(env, labels[..n], rs[..n]) + GivenBy(env, labels[n], rs[n])
    {
      if i :| 0 <= i < n && k in GivenBy(env, labels[i], rs[i]) {
        assert k in GivenBy(env, labels[..n][i], rs[..n][i]);
      }
      if i :| 0 <= i < n && k in GivenBy(env, labels[..n][i], rs[..n][i]) {
        assert k in GivenBy(env, labels[i], rs[i]);
      }
    }
  }

  // ---- the keys of a row ---------------------------------------------------------------------

  lemma StaticKeySet(env: Env, labels: seq<Label>, rs: seq<Resolution>, keys: seq<string>, values: seq<string>)
    requires |rs| == |labels| && StaticLabels(env, labels, rs, keys, values)
    ensures KeySet(keys) == PairKeys(StaticPairs(env, labels, rs))
  {
    hide StaticPairs, Sorted;
    var pairs := Zip(keys, values);
    forall i | 0 <= i < |keys| ensures keys[i] in PairKeys(multiset(pairs)) { assert pairs[i] in multiset(pairs); }
    forall k | k in PairKeys(multiset(pairs)) ensures k in KeySet(keys) {
      var p :| p in multiset(pairs) && p.0 == k;
      assert p in pairs;
    }
  }

  lemma NamesKeySet(keys: seq<string>, lists: map<string, seq<string>>)
    ensures KeySet(keys + SortedNames(lists.Keys)) == KeySet(keys) + lists.Keys
  {
    var names := SortedNames(lists.Keys);
    EnumerationFacts(names, lists.Keys);
    hide SortedNames, SortedEnumeration;
    KeysBoth(keys, names);
    assert KeySet(names) == lists.Keys;
  }

  lemma KeysBoth(a: seq<string>, b: seq<string>)
    ensures KeySet(a + b) == KeySet(a) + KeySet(b)
  {
    forall k | k in KeySet(a) + KeySet(b) ensures k in KeySet(a + b) {
      if i :| 0 <= i < |a| && a[i] == k {
        assert (a + b)[i] == k;
      } else {
        var i :| 0 <= i < |b| && b[i] == k;
        assert (a + b)[|a| + i] == k;
      }
    }
  }

  /** Every row of a metric carries exactly the names its labels give. */
  lemma RowKeysAre(env: Env, rk: ResolverKind, f: Config, m: Metric, o: Object, d: Draw)
    requires Legal(env, rk, f, m, o, d)
    ensures Formed(f, m, d) && forall i | 0 <= i < |RowsOf(env, f, m, d)| ::
              KeySet(RowsOf(env, f, m, d)[i].keys) == Given(env, LabelsOf(f, m), d.rs)
  {
    hide StaticLabels, Expanded, Given, KeySet, MaxLen, Cells, IsPermutation, Sorted, SortedNames;
    var lists := CoSortedLists(Lists(env, f, m, d), d.run, d.order);
    assert lists.Keys == Lists(env, f, m, d).Keys;
    KeysTogether(env, LabelsOf(f, m), d.rs, d.runs);
    StaticKeySet(env, LabelsOf(f, m), d.rs, d.keys, d.values);
    NamesKeySet(d.keys, lists);
    assert lists == map[] ==> KeySet(d.keys) == KeySet(d.keys) + lists.Keys;
  }

  lemma GivenSanitized(env: Env, labels: seq<Label>, rs: seq<Resolution>)
    requires |rs| == |labels|
    ensures forall k | k in Given(env, labels, rs) :: Sanitized(env, k)
  {
    hide ListIndexed, IsScalar;
    forall k | k in Given(env, labels, rs) ensures Sanitized(env, k) {
      var i :| 0 <= i < |labels| && k in GivenBy(env, labels[i], rs[i]);
      SanitizedName(env, labels[i].name);
      if j :| j in rs[i] && k == EntryKey(env, labels[i], j) {
        EntrySanitized(env, labels[i], j);
      }
    }
  }

  lemma SanitizedName(env: Env, s: string)
    ensures s != "" ==> Sanitized(env, env.sanitize(s))
  {
  }

  lemma EntrySanitized(env: Env, lb: Label, k: string)
    ensures Sanitized(env, EntryKey(env, lb, k))
  {
  }
}
