/** Resolving an expression against an object (pkg/resolver), and when the
    result depends on nothing else. */
module Resolvers {
  import opened Basics
  import opened Values
  import opened Flatten
  import opened Leaves
  import opened Resources

  /** The unstructured resolver and, at some instant, the CEL resolver. */
  method Resolve(env: Env, rk: ResolverKind, query: string, content: Value) returns (r: map<string, string>)
    requires env.Valid()
    ensures env.MayResolve(rk, query, content, r) && |r| < TWO_63
  {
    hide Resolves;
    if rk == Unstructured {
      r := env.Found(query, content);
    } else {
      var instant: int := *;
      r := ProcessResult(query, env.evaluate(instant, query, content));
    }
  }

  /** The texts entry k can have at some instant. */
  ghost function TextsAt(env: Env, instant: int, query: string, content: Value, k: string): set<string> {
    Texts(query, env.evaluate(instant, query, content), k)
  }

  /** The same names come out at every instant. */
  ghost predicate NamesFixed(env: Env, rk: ResolverKind, query: string, content: Value) {
    rk == Unstructured ||
    forall i, j, k :: TextsAt(env, i, query, content, k) == {} ==> TextsAt(env, j, query, content, k) == {}
  }

  /** Every name that comes out can only ever hold one text, at every instant. */
  ghost predicate Steady(env: Env, rk: ResolverKind, query: string, content: Value) {
    rk == Unstructured ||
    forall i, j, k, s | s in TextsAt(env, i, query, content, k) :: TextsAt(env, j, query, content, k) == {s}
  }

  ghost predicate AtInstant(env: Env, instant: int, query: string, content: Value, r: map<string, string>) {
    Resolves(query, env.evaluate(instant, query, content), r)
  }

  lemma MayResolveAt(env: Env, rk: ResolverKind, query: string, content: Value, r: map<string, string>)
    requires rk != Unstructured
    ensures env.MayResolve(rk, query, content, r) <==> exists instant :: AtInstant(env, instant, query, content, r)
  {
    hide Resolves;
    if env.MayResolve(rk, query, content, r) {
      var instant :| Resolves(query, env.evaluate(instant, query, content), r);
      assert AtInstant(env, instant, query, content, r);
    }
  }

  /** The names in the result depend on the object alone exactly if they are fixed. */
  lemma NamesIffFixed(env: Env, rk: ResolverKind, query: string, content: Value)
    ensures (forall r, r' | env.MayResolve(rk, query, content, r)
              && env.MayResolve(rk, query, content, r') :: r.Keys == r'.Keys)
       <==> NamesFixed(env, rk, query, content)
  {
    hide Resolves, Texts;
    if rk != Unstructured {
      forall r ensures env.MayResolve(rk, query, content, r)
          <==> exists instant :: AtInstant(env, instant, query, content, r) {
        MayResolveAt(env, rk, query, content, r);
      }
      if NamesFixed(env, rk, query, content) {
        forall r, r' | env.MayResolve(rk, query, content, r)
            && env.MayResolve(rk, query, content, r') ensures r.Keys == r'.Keys {
          var i :| AtInstant(env, i, query, content, r);
          var j :| AtInstant(env, j, query, content, r');
          forall k ensures k in r <==> k in r' {
            ResolvesTexts(query, env.evaluate(i, query, content), k);
            ResolvesTexts(query, env.evaluate(j, query, content), k);
            assert TextsAt(env, i, query, content, k) == {} <==> TextsAt(env, j, query, content, k) == {};
          }
        }
      } else {
        var i, j, k :| TextsAt(env, i, query, content, k) == {} && TextsAt(env, j, query, content, k) != {};
        ResolvesTexts(query, env.evaluate(i, query, content), k);
        ResolvesTexts(query, env.evaluate(j, query, content), k);
        var r := SomeResult(query, env.evaluate(i, query, content));
        var r' := SomeResult(query, env.evaluate(j, query, content));
        assert AtInstant(env, i, query, content, r) && AtInstant(env, j, query, content, r');
        assert k !in r && k in r';
      }
    }
  }

  /** The whole result depends on the object alone exactly if it is steady. */
  lemma ResultIffSteady(env: Env, rk: ResolverKind, query: string, content: Value)
    ensures (forall r, r' | env.MayResolve(rk, query, content, r) && env.MayResolve(rk, query, content, r') :: r == r')
       <==> Steady(env, rk, query, content)
    ensures Steady(env, rk, query, content) ==> NamesFixed(env, rk, query, content)
  {
    hide Resolves, Texts;
    if rk != Unstructured {
      forall r ensures env.MayResolve(rk, query, content, r)
          <==> exists instant :: AtInstant(env, instant, query, content, r) {
        MayResolveAt(env, rk, query, content, r);
      }
      if Steady(env, rk, query, content) {
        SteadyNames(env, rk, query, content);
        hide Steady;
        NamesIffFixed(env, rk, query, content);
        forall r, r' | env.MayResolve(rk, query, content, r) && env.MayResolve(rk, query, content, r') ensures r == r' {
          var i :| AtInstant(env, i, query, content, r);
          var j :| AtInstant(env, j, query, content, r');
          forall k | k in r ensures r[k] == r'[k] { SteadyText(env, rk, query, content, i, r, j, r', k); }
        }
      }
      if forall r, r' | env.MayResolve(rk, query, content, r) && env.MayResolve(rk, query, content, r') :: r == r' {
        forall i, j, k, s | s in TextsAt(env, i, query, content, k) ensures TextsAt(env, j, query, content, k) == {s} {
          SameText(env, rk, query, content, i, j, k, s);
        }
      }
    }
  }

  lemma SteadyText(env: Env, rk: ResolverKind, query: string, content: Value,
                   i: int, r: map<string, string>, j: int, r': map<string, string>, k: string)
    requires rk != Unstructured && Steady(env, rk, query, content) && k in r && k in r'
    requires AtInstant(env, i, query, content, r) && AtInstant(env, j, query, content, r')
    ensures r[k] == r'[k]
  {
    hide Resolves, Texts;
    ResolvesTexts(query, env.evaluate(i, query, content), k);
    ResolvesTexts(query, env.evaluate(j, query, content), k);
    assert r[k] in TextsAt(env, i, query, content, k);
    assert TextsAt(env, j, query, content, k) == {r[k]};
    assert r'[k] in TextsAt(env, j, query, content, k);
  }

  lemma SteadyNames(env: Env, rk: ResolverKind, query: string, content: Value)
    requires Steady(env, rk, query, content)
    ensures NamesFixed(env, rk, query, content)
  {
    hide TextsAt;
    if rk != Unstructured {
      forall i, j, k | TextsAt(env, i, query, content, k) == {} ensures TextsAt(env, j, query, content, k) == {} {
        if s :| s in TextsAt(env, j, query, content, k) {
          assert TextsAt(env, i, query, content, k) == {s};
        }
      }
    }
  }

  lemma SameText(env: Env, rk: ResolverKind, query: string, content: Value, i: int, j: int, k: string, s: string)
    requires rk != Unstructured && s in TextsAt(env, i, query, content, k)
    requires forall r, r' | env.MayResolve(rk, query, content, r) && env.MayResolve(rk, query, content, r') :: r == r'
    ensures TextsAt(env, j, query, content, k) == {s}
  {
    hide Resolves, Texts;
    ResolvesTexts(query, env.evaluate(i, query, content), k);
    ResolvesTexts(query, env.evaluate(j, query, content), k);
    var r :| AtInstant(env, i, query, content, r) && k in r && r[k] == s;
    MayResolveAt(env, rk, query, content, r);
    var r' := SomeResult(query, env.evaluate(j, query, content));
    assert AtInstant(env, j, query, content, r');
    MayResolveAt(env, rk, query, content, r');
    assert r' == r;
    forall t | t in TextsAt(env, j, query, content, k) ensures t == s {
      var q :| AtInstant(env, j, query, content, q) && k in q && q[k] == t;
      MayResolveAt(env, rk, query, content, q);
    }
    assert s in TextsAt(env, j, query, content, k);
  }

  /** An expression whose value does not change with time and has distinct leaf
      names is steady. */
  lemma DistinctLeavesSteady(env: Env, rk: ResolverKind, query: string, content: Value, v: Value)
    requires forall instant :: env.evaluate(instant, query, content) == v
    requires DistinctLeaves(v, if v.List? then FieldParent(query) else "")
    ensures Steady(env, rk, query, content)
  {
    hide Texts, DistinctLeaves;
    DistinctLeavesSettle(query, v);
    forall i, j, k, s | s in TextsAt(env, i, query, content, k) ensures TextsAt(env, j, query, content, k) == {s} {
      assert TextsAt(env, i, query, content, k) == TextsAt(env, j, query, content, k) == Texts(query, v, k);
    }
  }
}
