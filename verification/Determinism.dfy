/** When labels and values of a metric depend on the object alone: they are
    resolved anew for every rendering, at another instant and with other map
    iteration orders. */
module Determinism {
  import opened Basics
  import opened Values
  import opened Flatten
  import opened Resources
  import opened Resolvers
  import opened LabelSorting
  import opened Labels
  import opened FamilyFacts

  // ---- a resolution always exists -----------------------------------------------------

  lemma SomeResolution(env: Env, rk: ResolverKind, query: string, content: Value) returns (r: Resolution)
    ensures env.MayResolve(rk, query, content, r)
  {
    hide Resolves;
    if rk == Unstructured {
      r := env.Found(query, content);
    } else {
      r := SomeResult(query, env.evaluate(0, query, content));
    }
  }

  lemma {:induction false} SomeResolutions(env: Env, rk: ResolverKind, labels: seq<Label>, o: Object)
      returns (rs: seq<Resolution>)
    ensures AllResolve(env, rk, labels, o, rs)
  {
    hide Env.MayResolve;
    rs := [];
    if labels != [] {
      var n := |labels| - 1;
      rs := SomeResolutions(env, rk, labels[..n], o);
      var r := SomeResolution(env, rk, labels[n].value, o.content);
      rs := rs + [r];
    }
  }

  /** Any text an entry can have is the text it has in some resolution. */
  lemma ResolutionWith(env: Env, rk: ResolverKind, query: string, content: Value, i: int, k: string, t: string)
      returns (r: Resolution)
    requires rk != Unstructured && t in TextsAt(env, i, query, content, k)
    ensures env.MayResolve(rk, query, content, r) && k in r && r[k] == t
  {
    hide Resolves, Texts;
    ResolvesTexts(query, env.evaluate(i, query, content), k);
    r :| Resolves(query, env.evaluate(i, query, content), r) && k in r && r[k] == t;
  }

  /** And an entry never has another text. */
  lemma TextOf(env: Env, rk: ResolverKind, query: string, content: Value, r: Resolution) returns (i: int)
    requires rk != Unstructured && env.MayResolve(rk, query, content, r)
    ensures forall k | k in r :: r[k] in TextsAt(env, i, query, content, k)
    ensures forall k | k !in r :: TextsAt(env, i, query, content, k) == {}
  {
    hide Resolves, Texts;
    i :| Resolves(query, env.evaluate(i, query, content), r);
    forall k
      ensures if k in r then r[k] in TextsAt(env, i, query, content, k) else TextsAt(env, i, query, content, k) == {}
    {
      ResolvesTexts(query, env.evaluate(i, query, content), k);
    }
  }

  // ---- static labels ----------------------------------------------------------------------

  /** The pairs of two resolutions of the same names, key by key. */
  lemma {:induction false} ArrangeEntries(env: Env, lb: Label, r: Resolution, r': Resolution, ks: set<string>)
      returns (ps: seq<Pair>, ps': seq<Pair>)
    requires ks <= r.Keys && r.Keys == r'.Keys
    ensures multiset(ps) == MapPairs(env, lb, r, ks) && multiset(ps') == MapPairs(env, lb, r', ks)
    ensures Firsts(ps) == Firsts(ps')
    decreases ks
  {
    hide MapPairs, ListIndexed, EntryKey, Firsts;
    ps, ps' := [], [];
    if ks == {} {
      NoPairs(env, lb, r);
      NoPairs(env, lb, r');
    } else {
      var k :| k in ks;
      ps, ps' := ArrangeEntries(env, lb, r, r', ks - {k});
      MapPairsRemove(env, lb, r, ks, k);
      MapPairsRemove(env, lb, r', ks, k);
      if !ListIndexed(k) {
        var key := EntryKey(env, lb, k);
        FirstsAppend(ps, (key, r[k]));
        FirstsAppend(ps', (key, r'[k]));
        ps, ps' := ps + [(key, r[k])], ps' + [(key, r'[k])];
      }
    }
  }

  lemma FirstsAppend(ps: seq<Pair>, p: Pair)
    ensures Firsts(ps + [p]) == Firsts(ps) + [p.0] && multiset(ps + [p]) == multiset(ps) + multiset{p}
  {
  }

  lemma ArrangeLabel(env: Env, lb: Label, r: Resolution, r': Resolution) returns (ps: seq<Pair>, ps': seq<Pair>)
    requires r.Keys == r'.Keys
    ensures multiset(ps) == LabelPairs(env, lb, r) && multiset(ps') == LabelPairs(env, lb, r')
    ensures Firsts(ps) == Firsts(ps')
  {
    hide MapPairs;
    if IsScalar(lb, r) {
      ps, ps' := [(env.sanitize(lb.name), r[lb.value])], [(env.sanitize(lb.name), r'[lb.value])];
      assert Firsts(ps) == [env.sanitize(lb.name)] == Firsts(ps');
    } else {
      ps, ps' := ArrangeEntries(env, lb, r, r', r.Keys);
    }
  }

  lemma {:induction false} Arrange(env: Env, labels: seq<Label>, rs: seq<Resolution>, rs': seq<Resolution>)
      returns (ps: seq<Pair>, ps': seq<Pair>)
    requires |rs| == |labels| && SameNames(rs, rs')
    ensures multiset(ps) == StaticPairs(env, labels, rs) && multiset(ps') == StaticPairs(env, labels, rs')
    ensures Firsts(ps) == Firsts(ps')
  {
    hide LabelPairs;
    ps, ps' := [], [];
    if labels != [] {
      var n := |labels| - 1;
      ps, ps' := Arrange(env, labels[..n], rs[..n], rs'[..n]);
      var qs, qs' := ArrangeLabel(env, labels[n], rs[n], rs'[n]);
      assert Firsts(ps + qs) == Firsts(ps) + Firsts(qs) && Firsts(ps' + qs') == Firsts(ps') + Firsts(qs');
      ps, ps' := ps + qs, ps' + qs';
    }
  }

  /** The names each label's expression gives are fixed. */
  ghost predicate AllFixed(env: Env, rk: ResolverKind, labels: seq<Label>, o: Object) {
    forall lb | lb in labels :: NamesFixed(env, rk, lb.value, o.content)
  }

  lemma FixedSameNames(env: Env, rk: ResolverKind, labels: seq<Label>, o: Object, rs: seq<Resolution>,
                       rs': seq<Resolution>)
    requires AllFixed(env, rk, labels, o) && AllResolve(env, rk, labels, o, rs) && AllResolve(env, rk, labels, o, rs')
    ensures SameNames(rs, rs')
  {
    hide NamesFixed, Env.MayResolve;
    forall i | 0 <= i < |labels| ensures rs[i].Keys == rs'[i].Keys {
      assert labels[i] in labels;
      NamesIffFixed(env, rk, labels[i].value, o.content);
    }
  }

  /** k is the name of an entry that becomes a static label. */
  ghost predicate Shown(env: Env, lb: Label, o: Object, k: string) {
    if TextsAt(env, 0, lb.value, o.content, lb.value) != {} then k == lb.value else !ListIndexed(k)
  }

  /** Every entry that becomes a static label can only ever hold one text. */
  ghost predicate SteadyShown(env: Env, rk: ResolverKind, lb: Label, o: Object) {
    rk == Unstructured ||
    forall i, j, k, s | Shown(env, lb, o, k) && s in TextsAt(env, i, lb.value, o.content, k) ::
      TextsAt(env, j, lb.value, o.content, k) == {s}
  }

  lemma ShownIn(env: Env, rk: ResolverKind, lb: Label, o: Object, r: Resolution)
    requires rk != Unstructured && env.MayResolve(rk, lb.value, o.content, r)
               && NamesFixed(env, rk, lb.value, o.content)
    ensures IsScalar(lb, r) <==> TextsAt(env, 0, lb.value, o.content, lb.value) != {}
    ensures forall k | k in r :: TextsAt(env, 0, lb.value, o.content, k) != {}
  {
    hide Env.MayResolve, TextsAt;
    var i := TextOf(env, rk, lb.value, o.content, r);
  }

  /** r and r' agree on what is shown. */
  ghost predicate ShowSame(lb: Label, r: Resolution, r': Resolution) {
    && r.Keys == r'.Keys
    && if IsScalar(lb, r) then r[lb.value] == r'[lb.value] else forall k | k in r && !ListIndexed(k) :: r[k] == r'[k]
  }

  lemma SteadyShowsSame(env: Env, rk: ResolverKind, lb: Label, o: Object, r: Resolution, r': Resolution)
    requires NamesFixed(env, rk, lb.value, o.content) && SteadyShown(env, rk, lb, o)
    requires env.MayResolve(rk, lb.value, o.content, r) && env.MayResolve(rk, lb.value, o.content, r')
    ensures ShowSame(lb, r, r')
  {
    if rk != Unstructured {
      hide Env.MayResolve, TextsAt, ListIndexed;
      ShownIn(env, rk, lb, o, r);
      NamesIffFixed(env, rk, lb.value, o.content);
      var i := TextOf(env, rk, lb.value, o.content, r);
      var j := TextOf(env, rk, lb.value, o.content, r');
      forall k | k in r && Shown(env, lb, o, k) ensures r[k] == r'[k] {
        assert TextsAt(env, j, lb.value, o.content, k) == {r[k]};
      }
    }
  }

  lemma {:induction false} SameEntries(env: Env, lb: Label, r: Resolution, r': Resolution, ks: set<string>)
    requires ks <= r.Keys && r.Keys == r'.Keys && forall k | k in ks && !ListIndexed(k) :: r[k] == r'[k]
    ensures MapPairs(env, lb, r, ks) == MapPairs(env, lb, r', ks)
    decreases ks
  {
    hide MapPairs, ListIndexed, EntryKey;
    if ks == {} {
      NoPairs(env, lb, r);
      NoPairs(env, lb, r');
    } else {
      var k :| k in ks;
      SameEntries(env, lb, r, r', ks - {k});
      MapPairsRemove(env, lb, r, ks, k);
      MapPairsRemove(env, lb, r', ks, k);
    }
  }

  lemma {:induction false} SameStatic(env: Env, labels: seq<Label>, rs: seq<Resolution>, rs': seq<Resolution>)
    requires |rs| == |rs'| == |labels| && forall i | 0 <= i < |labels| :: ShowSame(labels[i], rs[i], rs'[i])
    ensures StaticPairs(env, labels, rs) == StaticPairs(env, labels, rs')
  {
    if labels != [] {
      hide MapPairs, ListIndexed;
      var n := |labels| - 1;
      SameStatic(env, labels[..n], rs[..n], rs'[..n]);
      assert ShowSame(labels[n], rs[n], rs'[n]);
      if !IsScalar(labels[n], rs[n]) {
        SameEntries(env, labels[n], rs[n], rs'[n], rs[n].Keys);
      }
    }
  }

  /** The static labels the metric may get. */
  ghost predicate MayShow(env: Env, rk: ResolverKind, labels: seq<Label>, o: Object, keys: seq<string>,
                          values: seq<string>) {
    exists rs :: AllResolve(env, rk, labels, o, rs) && StaticLabels(env, labels, rs, keys, values)
  }

  /** With fixed names the static keys are the same at every rendering, for every
      map iteration order and every unstable sort. */
  lemma StaticKeysDetermined(env: Env, rk: ResolverKind, labels: seq<Label>, o: Object,
                             keys: seq<string>, values: seq<string>, keys': seq<string>, values': seq<string>)
    requires AllFixed(env, rk, labels, o)
    requires MayShow(env, rk, labels, o, keys, values) && MayShow(env, rk, labels, o, keys', values')
    ensures keys == keys'
  {
    hide Env.MayResolve, NamesFixed, StaticPairs, Sorted;
    var rs :| AllResolve(env, rk, labels, o, rs) && StaticLabels(env, labels, rs, keys, values);
    var rs' :| AllResolve(env, rk, labels, o, rs') && StaticLabels(env, labels, rs', keys', values');
    FixedSameNames(env, rk, labels, o, rs, rs');
    var ps, ps' := Arrange(env, labels, rs, rs');
    KeysOfPairs(Zip(keys, values), ps);
    KeysOfPairs(Zip(keys', values'), ps');
    SameKeys(keys, values, keys', values');
  }

  /** And when no key repeats, the values are the same every time exactly if every
      entry shown can only ever hold one text. */
  lemma StaticLabelsDetermined(env: Env, rk: ResolverKind, labels: seq<Label>, o: Object, keys: seq<string>)
    requires AllFixed(env, rk, labels, o) && Distinct(keys)
               && exists values :: MayShow(env, rk, labels, o, keys, values)
    ensures (forall values, values' | MayShow(env, rk, labels, o, keys, values)
              && MayShow(env, rk, labels, o, keys, values') ::
               values == values')
       <==> forall lb | lb in labels :: SteadyShown(env, rk, lb, o)
  {
    hide MayShow, SteadyShown;
    if forall lb | lb in labels :: SteadyShown(env, rk, lb, o) {
      forall values, values' | MayShow(env, rk, labels, o, keys, values) && MayShow(env, rk, labels, o, keys, values')
        ensures values == values'
      {
        SteadyValues(env, rk, labels, o, keys, values, values');
      }
    }
    if forall values, values' | MayShow(env, rk, labels, o, keys, values)
        && MayShow(env, rk, labels, o, keys, values') ::
         values == values'
    {
      forall a | 0 <= a < |labels| ensures SteadyShown(env, rk, labels[a], o) {
        ValuesSteady(env, rk, labels, o, keys, a);
      }
    }
  }

  lemma SteadyValues(env: Env, rk: ResolverKind, labels: seq<Label>, o: Object,
                     keys: seq<string>, values: seq<string>, values': seq<string>)
    requires AllFixed(env, rk, labels, o) && Distinct(keys) && forall lb | lb in labels :: SteadyShown(env, rk, lb, o)
    requires MayShow(env, rk, labels, o, keys, values) && MayShow(env, rk, labels, o, keys, values')
    ensures values == values'
  {
    hide SteadyShown, NamesFixed, Env.MayResolve, StaticPairs, Sorted, ShowSame;
    var rs :| AllResolve(env, rk, labels, o, rs) && StaticLabels(env, labels, rs, keys, values);
    var rs' :| AllResolve(env, rk, labels, o, rs') && StaticLabels(env, labels, rs', keys, values');
    forall i | 0 <= i < |labels| ensures ShowSame(labels[i], rs[i], rs'[i]) {
      assert labels[i] in labels;
      SteadyShowsSame(env, rk, labels[i], o, rs[i], rs'[i]);
    }
    SameStatic(env, labels, rs, rs');
    SamePairs(keys, values, keys, values');
  }

  // ---- every resolution can be shown --------------------------------------------------------

  lemma {:induction false} SomeSorting(keys: seq<string>, n: nat) returns (order: seq<nat>)
    requires n <= |keys|
    ensures Below(order, |keys|) && Sorted(Apply(keys, order)) && multiset(order) == multiset(Ids(n))
  {
    order := [];
    if n > 0 {
      order := SomeSorting(keys, n - 1);
      InsertMultiset(keys, order, n - 1);
      InsertSorted(keys, order, n - 1);
      order := Insert(keys, order, n - 1);
      assert Ids(n) == Ids(n - 1) + [n - 1];
    }
  }

  lemma SomeStatic(env: Env, labels: seq<Label>, rs: seq<Resolution>) returns (keys: seq<string>, values: seq<string>)
    requires |rs| == |labels|
    ensures StaticLabels(env, labels, rs, keys, values)
  {
    hide StaticPairs, Sorted, IsPermutation;
    var ps, _ := Arrange(env, labels, rs, rs);
    var ks, vs := Firsts(ps), seq(|ps|, i requires 0 <= i < |ps| => ps[i].1);
    assert Zip(ks, vs) == ps;
    var order := SomeSorting(ks, |ks|);
    assert IsPermutation(order, |ks|) by { PermutationIs(order, |ks|); }
    SortedPairs(ks, vs, order);
    keys, values := Apply(ks, order), Apply(vs, order);
  }

  lemma PermutationIs(order: seq<nat>, n: nat)
    requires multiset(order) == multiset(Ids(n))
    ensures IsPermutation(order, n)
  {
  }

  lemma PairShown(env: Env, rk: ResolverKind, lb: Label, o: Object, r: Resolution, k: string)
    requires rk != Unstructured && NamesFixed(env, rk, lb.value, o.content)
               && env.MayResolve(rk, lb.value, o.content, r)
    requires k in r && Shown(env, lb, o, k)
    ensures (if IsScalar(lb, r) then env.sanitize(lb.name) else EntryKey(env, lb, k), r[k]) in LabelPairs(env, lb, r)
  {
    hide Env.MayResolve, TextsAt, ListIndexed, EntryKey, NamesFixed, MapPairs;
    ShownIn(env, rk, lb, o, r);
    if !IsScalar(lb, r) {
      MapPairsRemove(env, lb, r, r.Keys, k);
    }
  }

  lemma {:induction false} LabelPairIn(env: Env, labels: seq<Label>, rs: seq<Resolution>, a: nat, p: Pair)
    requires |rs| == |labels| && a < |labels| && p in LabelPairs(env, labels[a], rs[a])
    ensures p in StaticPairs(env, labels, rs)
    decreases |labels|
  {
    hide LabelPairs;
    if a < |labels| - 1 {
      LabelPairIn(env, labels[..|labels| - 1], rs[..|rs| - 1], a, p);
    }
  }

  lemma ValuesSteady(env: Env, rk: ResolverKind, labels: seq<Label>, o: Object, keys: seq<string>, a: nat)
    requires AllFixed(env, rk, labels, o) && Distinct(keys)
               && exists values :: MayShow(env, rk, labels, o, keys, values)
    requires forall values, values' | MayShow(env, rk, labels, o, keys, values)
               && MayShow(env, rk, labels, o, keys, values') ::
               values == values'
    requires a < |labels|
    ensures SteadyShown(env, rk, labels[a], o)
  {
    hide TextsAt, NamesFixed, MayShow, Shown;
    var lb := labels[a];
    assert lb in labels;
    if rk != Unstructured {
      forall i, j, k, s | Shown(env, lb, o, k) && s in TextsAt(env, i, lb.value, o.content, k)
        ensures TextsAt(env, j, lb.value, o.content, k) == {s}
      {
        FixedText(env, rk, lb.value, o.content, i, j, k);
        forall t | t in TextsAt(env, j, lb.value, o.content, k) ensures t == s {
          TextsAgree(env, rk, labels, o, keys, a, i, j, k, s, t);
        }
        var t :| t in TextsAt(env, j, lb.value, o.content, k);
      }
    }
  }

  lemma FixedText(env: Env, rk: ResolverKind, query: string, content: Value, i: int, j: int, k: string)
    requires rk != Unstructured && NamesFixed(env, rk, query, content) && TextsAt(env, i, query, content, k) != {}
    ensures TextsAt(env, j, query, content, k) != {}
  {
    hide TextsAt;
  }

  /** Resolve label a in two ways and everything else in one. */
  lemma TextsAgree(env: Env, rk: ResolverKind, labels: seq<Label>, o: Object, keys: seq<string>,
                   a: nat, i: int, j: int, k: string, s: string, t: string)
    requires AllFixed(env, rk, labels, o) && Distinct(keys)
               && exists values :: MayShow(env, rk, labels, o, keys, values)
    requires forall values, values' | MayShow(env, rk, labels, o, keys, values)
               && MayShow(env, rk, labels, o, keys, values') ::
               values == values'
    requires rk != Unstructured && a < |labels| && Shown(env, labels[a], o, k)
    requires s in TextsAt(env, i, labels[a].value, o.content, k) && t in TextsAt(env, j, labels[a].value, o.content, k)
    ensures s == t
  {
    hide TextsAt, NamesFixed, Shown, StaticPairs, LabelPairs, Env.MayResolve, Sorted, EntryKey;
    var lb := labels[a];
    assert lb in labels;
    var rest := SomeResolutions(env, rk, labels, o);
    var r := ResolutionWith(env, rk, lb.value, o.content, i, k, s);
    var r' := ResolutionWith(env, rk, lb.value, o.content, j, k, t);
    var rs, rs' := rest[a := r], rest[a := r'];
    var ks, vs := SomeStatic(env, labels, rs);
    var ks', vs' := SomeStatic(env, labels, rs');
    var values :| MayShow(env, rk, labels, o, keys, values);
    assert MayShow(env, rk, labels, o, ks, vs) && MayShow(env, rk, labels, o, ks', vs');
    hide MayShow;
    StaticKeysDetermined(env, rk, labels, o, keys, values, ks, vs);
    StaticKeysDetermined(env, rk, labels, o, keys, values, ks', vs');
    NamesIffFixed(env, rk, lb.value, o.content);
    PairShown(env, rk, lb, o, r, k);
    PairShown(env, rk, lb, o, r', k);
    var key := if IsScalar(lb, r) then env.sanitize(lb.name) else EntryKey(env, lb, k);
    LabelPairIn(env, labels, rs, a, (key, s));
    LabelPairIn(env, labels, rs', a, (key, t));
    OneValue(keys, vs, key, s, t);
  }

  lemma OneValue(keys: seq<string>, values: seq<string>, key: string, s: string, t: string)
    requires |keys| == |values| && Distinct(keys)
    requires (key, s) in multiset(Zip(keys, values)) && (key, t) in multiset(Zip(keys, values))
    ensures s == t
  {
    assert (key, s) in Zip(keys, values) && (key, t) in Zip(keys, values);
    var i :| 0 <= i < |keys| && Zip(keys, values)[i] == (key, s);
    var j :| 0 <= j < |keys| && Zip(keys, values)[j] == (key, t);
    assert i == j;
  }
}
