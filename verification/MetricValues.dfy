/** When the value of a metric depends on the object alone. */
module MetricValues {
  import opened Basics
  import opened Collect
  import opened Resources
  import opened Resolvers
  import opened Labels
  import opened Expansion
  import opened Family
  import opened Determinism

  /** The value expression may resolve to r and, if that is no single value, the
      list collected from it may be run. */
  ghost predicate MayHave(env: Env, rk: ResolverKind, m: Metric, o: Object, r: Resolution, run: seq<string>) {
    env.MayResolve(rk, m.value, o.content, r) && ValueRun(m, r, run)
  }

  /** The single value, if there is one, and the list. */
  function ValueOf(m: Metric, r: Resolution, run: seq<string>): (Option<string>, seq<string>) {
    (if m.value in r then Some(r[m.value]) else None, run)
  }

  /** Entries with index n count: there is one for every index up to n. */
  ghost predicate Reached(env: Env, query: string, o: Object, n: nat) {
    forall l: nat | l <= n :: Carried(env, query, o, l)
  }

  ghost predicate Carried(env: Env, query: string, o: Object, l: nat) {
    exists k :: IndexOf(k) == Some(l) && TextsAt(env, 0, query, o.content, k) != {}
  }

  /** The single value, or each place in the list, can only ever hold one text. */
  ghost predicate SteadyValue(env: Env, rk: ResolverKind, m: Metric, o: Object) {
    rk == Unstructured ||
    if TextsAt(env, 0, m.value, o.content, m.value) != {} then
      forall i, j, s, t | s in TextsAt(env, i, m.value, o.content, m.value)
          && t in TextsAt(env, j, m.value, o.content, m.value) ::
        s == t
    else
      forall n: nat, k, k', i, j, s, t | Reached(env, m.value, o, n) && IndexOf(k) == Some(n) == IndexOf(k')
             && s in TextsAt(env, i, m.value, o.content, k) && t in TextsAt(env, j, m.value, o.content, k') ::
        s == t
  }

  // ---- lists can always be collected ------------------------------------------------------

  lemma {:induction false} SomeRunFrom(r: Resolution, done: seq<string>) returns (run: seq<string>)
    requires forall i: nat | i < |done| :: IsEntry(r, i, done[i])
    ensures IsRun(r, run) && done <= run
    decreases |r| - |done|
  {
    hide IndexOf;
    if HasIndex(r, |done|) {
      var k :| k in r && IndexOf(k) == Some(|done|);
      var more := done + [r[k]];
      assert IsEntry(r, |done|, r[k]);
      forall i: nat | i < |more| ensures HasIndex(r, i) { assert IsEntry(r, i, more[i]); }
      Pigeonhole(r, |more|);
      run := SomeRunFrom(r, more);
    } else {
      run := done;
    }
  }

  /** A list that has entry k in its place. */
  lemma RunWith(r: Resolution, k: string, n: nat) returns (run: seq<string>)
    requires k in r && IndexOf(k) == Some(n) && forall l: nat | l < n :: HasIndex(r, l)
    ensures IsRun(r, run) && n < |run| && run[n] == r[k]
  {
    hide IndexOf;
    var done := SomeEntries(r, n);
    assert IsEntry(r, n, r[k]);
    run := SomeRunFrom(r, done + [r[k]]);
  }

  lemma {:induction false} SomeEntries(r: Resolution, n: nat) returns (done: seq<string>)
    requires forall l: nat | l < n :: HasIndex(r, l)
    ensures |done| == n && forall i: nat | i < n :: IsEntry(r, i, done[i])
  {
    hide IndexOf;
    done := [];
    if n > 0 {
      done := SomeEntries(r, n - 1);
      assert HasIndex(r, n - 1);
      var k :| k in r && IndexOf(k) == Some(n - 1);
      assert IsEntry(r, n - 1, r[k]);
      done := done + [r[k]];
    }
  }

  // ---- exactly when the value is the same every time ----------------------------------------

  lemma SingleIn(env: Env, rk: ResolverKind, m: Metric, o: Object, r: Resolution)
    requires rk != Unstructured && NamesFixed(env, rk, m.value, o.content) && env.MayResolve(rk, m.value, o.content, r)
    ensures m.value in r <==> TextsAt(env, 0, m.value, o.content, m.value) != {}
    ensures forall k :: k in r <==> TextsAt(env, 0, m.value, o.content, k) != {}
  {
    hide Env.MayResolve, TextsAt;
    var i := TextOf(env, rk, m.value, o.content, r);
  }

  lemma ReachedIndices(env: Env, query: string, o: Object, r: Resolution, n: nat)
    requires forall k :: k in r <==> TextsAt(env, 0, query, o.content, k) != {}
    ensures Reached(env, query, o, n) <==> forall l: nat | l <= n :: HasIndex(r, l)
  {
    hide TextsAt, IndexOf;
    forall l: nat ensures Carried(env, query, o, l) <==> HasIndex(r, l) {
      if k :| IndexOf(k) == Some(l) && TextsAt(env, 0, query, o.content, k) != {} { assert k in r; }
      if k :| k in r && IndexOf(k) == Some(l) { assert TextsAt(env, 0, query, o.content, k) != {}; }
    }
  }

  /** The value is the same at every rendering exactly if it is steady. */
  lemma ValueIffSteady(env: Env, rk: ResolverKind, m: Metric, o: Object)
    requires NamesFixed(env, rk, m.value, o.content)
    ensures (forall r, run, r', run' | MayHave(env, rk, m, o, r, run) && MayHave(env, rk, m, o, r', run') ::
               ValueOf(m, r, run) == ValueOf(m, r', run'))
       <==> SteadyValue(env, rk, m, o)
  {
    hide MayHave, SteadyValue, NamesFixed;
    if SteadyValue(env, rk, m, o) {
      forall r, run, r', run' | MayHave(env, rk, m, o, r, run) && MayHave(env, rk, m, o, r', run')
        ensures ValueOf(m, r, run) == ValueOf(m, r', run')
      {
        SteadySame(env, rk, m, o, r, run, r', run');
      }
    }
    if forall r, run, r', run' | MayHave(env, rk, m, o, r, run) && MayHave(env, rk, m, o, r', run') ::
         ValueOf(m, r, run) == ValueOf(m, r', run')
    {
      SameSteady(env, rk, m, o);
    }
  }

  lemma SteadySame(env: Env, rk: ResolverKind, m: Metric, o: Object,
                   r: Resolution, run: seq<string>, r': Resolution, run': seq<string>)
    requires NamesFixed(env, rk, m.value, o.content) && SteadyValue(env, rk, m, o)
    requires MayHave(env, rk, m, o, r, run) && MayHave(env, rk, m, o, r', run')
    ensures ValueOf(m, r, run) == ValueOf(m, r', run')
  {
    hide Env.MayResolve, TextsAt, NamesFixed, IsRun, Reached, IndexOf;
    if rk == Unstructured {
      OneFound(env, m, o, r, r');
    } else {
      NamesIffFixed(env, rk, m.value, o.content);
      SingleIn(env, rk, m, o, r);
      var i := TextOf(env, rk, m.value, o.content, r);
      var j := TextOf(env, rk, m.value, o.content, r');
      if m.value !in r {
        RunDetermined(r, r', run, run');
        forall n: nat | n < |run| ensures run[n] == run'[n] {
          SteadyPlace(env, m, o, r, run, r', run', i, j, n);
        }
        assert run == run';
      } else {
        assert r[m.value] in TextsAt(env, i, m.value, o.content, m.value);
        assert r'[m.value] in TextsAt(env, j, m.value, o.content, m.value);
      }
    }
  }

  lemma OneFound(env: Env, m: Metric, o: Object, r: Resolution, r': Resolution)
    requires env.MayResolve(Unstructured, m.value, o.content, r) && env.MayResolve(Unstructured, m.value, o.content, r')
    ensures r == r' && m.value in r
  {
  }

  lemma SteadyPlace(env: Env, m: Metric, o: Object, r: Resolution, run: seq<string>, r': Resolution, run': seq<string>,
                    i: int, j: int, n: nat)
    requires IsRun(r, run) && IsRun(r', run') && n < |run| == |run'|
    requires forall k | k in r :: r[k] in TextsAt(env, i, m.value, o.content, k)
    requires forall k | k in r' :: r'[k] in TextsAt(env, j, m.value, o.content, k)
    requires forall k :: k in r <==> TextsAt(env, 0, m.value, o.content, k) != {}
    requires TextsAt(env, 0, m.value, o.content, m.value) == {} && SteadyValue(env, Cel, m, o)
    ensures run[n] == run'[n]
  {
    hide TextsAt, IndexOf, Reached;
    forall l: nat | l <= n ensures HasIndex(r, l) { assert IsEntry(r, l, run[l]); }
    ReachedIndices(env, m.value, o, r, n);
    assert IsEntry(r, n, run[n]) && IsEntry(r', n, run'[n]);
    var k :| k in r && IndexOf(k) == Some(n) && r[k] == run[n];
    var k' :| k' in r' && IndexOf(k') == Some(n) && r'[k'] == run'[n];
  }

  lemma SameSteady(env: Env, rk: ResolverKind, m: Metric, o: Object)
    requires NamesFixed(env, rk, m.value, o.content)
    requires forall r, run, r', run' | MayHave(env, rk, m, o, r, run) && MayHave(env, rk, m, o, r', run') ::
               ValueOf(m, r, run) == ValueOf(m, r', run')
    ensures SteadyValue(env, rk, m, o)
  {
    hide TextsAt, NamesFixed, IndexOf, Reached, MayHave;
    if rk != Unstructured {
      if TextsAt(env, 0, m.value, o.content, m.value) != {} {
        forall i, j, s, t | s in TextsAt(env, i, m.value, o.content, m.value)
            && t in TextsAt(env, j, m.value, o.content, m.value)
          ensures s == t
        {
          var r := HavingSingle(env, rk, m, o, i, s);
          var r' := HavingSingle(env, rk, m, o, j, t);
        }
      } else {
        forall n: nat, k, k', i, j, s, t | Reached(env, m.value, o, n) && IndexOf(k) == Some(n) == IndexOf(k')
               && s in TextsAt(env, i, m.value, o.content, k) && t in TextsAt(env, j, m.value, o.content, k')
          ensures s == t
        {
          var r, run := HavingAt(env, rk, m, o, i, k, n, s);
          var r', run' := HavingAt(env, rk, m, o, j, k', n, t);
          assert ValueOf(m, r, run) == ValueOf(m, r', run');
        }
      }
    }
  }

  lemma HavingSingle(env: Env, rk: ResolverKind, m: Metric, o: Object, i: int, s: string) returns (r: Resolution)
    requires rk != Unstructured && s in TextsAt(env, i, m.value, o.content, m.value)
    ensures MayHave(env, rk, m, o, r, []) && ValueOf(m, r, []) == (Some(s), [])
  {
    hide Env.MayResolve, TextsAt;
    r := ResolutionWith(env, rk, m.value, o.content, i, m.value, s);
  }

  lemma HavingAt(env: Env, rk: ResolverKind, m: Metric, o: Object, i: int, k: string, n: nat, s: string)
      returns (r: Resolution, run: seq<string>)
    requires rk != Unstructured && NamesFixed(env, rk, m.value, o.content)
    requires TextsAt(env, 0, m.value, o.content, m.value) == {}
    requires Reached(env, m.value, o, n) && IndexOf(k) == Some(n) && s in TextsAt(env, i, m.value, o.content, k)
    ensures MayHave(env, rk, m, o, r, run) && n < |run| && run[n] == s
  {
    hide Env.MayResolve, TextsAt, NamesFixed, IndexOf, IsRun, Reached;
    r := ResolutionWith(env, rk, m.value, o.content, i, k, s);
    SingleIn(env, rk, m, o, r);
    ReachedIndices(env, m.value, o, r, n);
    run := RunWith(r, k, n);
  }

  // ---- every metric can be rendered -----------------------------------------------------------

  lemma {:induction false} SomeRuns(labels: seq<Label>, rs: seq<Resolution>) returns (runs: seq<seq<string>>)
    requires |rs| == |labels|
    ensures LabelRuns(labels, rs, runs)
  {
    hide IsRun, IsScalar;
    runs := [];
    if labels != [] {
      var n := |labels| - 1;
      runs := SomeRuns(labels[..n], rs[..n]);
      var run := [];
      if !IsScalar(labels[n], rs[n]) {
        run := SomeRunFrom(rs[n], []);
      }
      runs := runs + [run];
    }
  }

  lemma SomeAnchorOrder(lists: map<string, seq<string>>, xs: seq<string>) returns (order: seq<nat>)
    ensures AnchorOrder(lists, xs, order)
  {
    hide Sorted, Anchor;
    order := [];
    if Sortable(lists, xs) {
      var anchor := lists[Anchor(lists.Keys)];
      order := SomeSorting(anchor, |anchor|);
      PermutationIs(order, |anchor|);
      PermutationFacts(order, |anchor|);
    }
  }

  lemma SomeDraw(env: Env, rk: ResolverKind, f: Config, m: Metric, o: Object) returns (d: Draw)
    ensures Legal(env, rk, f, m, o, d)
  {
    hide Env.MayResolve, Legal;
    var r := SomeResolution(env, rk, m.value, o.content);
    var run := [];
    if m.value !in r {
      run := SomeRunFrom(r, []);
    }
    d := DrawWith(env, rk, f, m, o, r, run);
  }

  /** Whatever the value expression may come to, the metric may be rendered with it. */
  lemma DrawWith(env: Env, rk: ResolverKind, f: Config, m: Metric, o: Object, r: Resolution, run: seq<string>)
      returns (d: Draw)
    requires MayHave(env, rk, m, o, r, run)
    ensures Legal(env, rk, f, m, o, d) && d.r == r && d.run == run
  {
    hide AllResolve, Env.MayResolve, StaticLabels, LabelRuns, ValueRun, AnchorOrder, Expanded;
    var labels := LabelsOf(f, m);
    var rs := SomeResolutions(env, rk, labels, o);
    ResolutionCount(env, rk, labels, o, rs);
    var keys, values := SomeStatic(env, labels, rs);
    var runs := SomeRuns(labels, rs);
    RunCount(labels, rs, runs);
    var order := SomeAnchorOrder(Expanded(env, labels, rs, runs), run);
    d := Draw(rs, r, keys, values, runs, run, order);
  }

  lemma ResolutionCount(env: Env, rk: ResolverKind, labels: seq<Label>, o: Object, rs: seq<Resolution>)
    requires AllResolve(env, rk, labels, o, rs)
    ensures |rs| == |labels|
  {
  }
}
