/** How totals add up across families, stores and monitors
    (internal/events.go, aggregateStoreCardinality). */
module Conservation {
  import opened Basics
  import opened Tracker

  // ---- accumulating maps ------------------------------------------------------------

  /** `a[f] += b[f]` for every entry of b. */
  function Merged(a: map<string, int>, b: map<string, int>): map<string, int> {
    map f | f in a.Keys + b.Keys :: if f in b then Wrap64(CountOf(a, f) + b[f]) else a[f]
  }

  /** `if b[f] > a[f] { a[f] = b[f] }` for every entry of b. */
  function Raised(a: map<string, int>, b: map<string, int>): map<string, int> {
    map f | f in a.Keys + b.Keys && (f in a || b[f] > 0) ::
      if f in b && b[f] > CountOf(a, f) then b[f] else CountOf(a, f)
  }

  ghost function Total(sts: seq<State>): int {
    if sts == [] then 0 else Wrap64(Total(sts[..|sts| - 1]) + StoreCount(sts[|sts| - 1]))
  }

  ghost function PerStore(ids: seq<string>, sts: seq<State>): map<string, int>
    requires |ids| == |sts|
  {
    if sts == [] then map[]
    else PerStore(ids[..|sts| - 1], sts[..|sts| - 1])[ids[|sts| - 1] := StoreCount(sts[|sts| - 1])]
  }

  ghost function PerFamily(sts: seq<State>): map<string, int> {
    if sts == [] then map[] else Merged(PerFamily(sts[..|sts| - 1]), FamilyCounts(sts[|sts| - 1]))
  }

  function PerFamilyLimit(sts: seq<State>): map<string, int> {
    if sts == [] then map[] else Raised(PerFamilyLimit(sts[..|sts| - 1]), sts[|sts| - 1].limits.family)
  }

  // ---- modulo 2^64 --------------------------------------------------------------------

  /** Equal as int64 values. */
  predicate Same(x: int, y: int) {
    Wrap64(x) == Wrap64(y)
  }

  lemma SameAdd(a: int, x: int, b: int, y: int)
    requires Same(a, x) && Same(b, y)
    ensures Same(a + b, x + y)
  {
    hide Wrap64;
    WrapAdd(a, b);
    WrapAdd(x, b);
    WrapAdd(b, x);
    WrapAdd(y, x);
  }

  lemma SmallWrap()
    ensures Wrap64(0) == 0
  {
  }

  lemma WrapSame(x: int)
    ensures Same(Wrap64(x), x)
  {
  }

  // ---- the store total is the sum of the family counts ---------------------------------

  /** The family sums, unwrapped. */
  ghost function FamilySums(objects: map<Uid, Counts>, known: set<string>): map<string, int> {
    map f | f in known :: FamilySum(objects, f)
  }

  lemma {:induction false} NoObjects(known: set<string>)
    ensures Sum(FamilySums(map[], known)) == 0
    decreases known
  {
    if known == {} {
      assert FamilySums(map[], known) == map[];
    } else {
      var f :| f in known;
      SumRemove(FamilySums(map[], known), f);
      assert FamilySums(map[], known) - {f} == FamilySums(map[], known - {f});
      NoObjects(known - {f});
      assert FamilyColumn(map[], f) == map[];
    }
  }

  lemma CountsOverKnown(c: Counts, known: set<string>)
    requires c.Keys <= known
    ensures Sum(map f | f in known :: CountOf(c, f)) == Sum(c)
    decreases |known|
  {
    var wide := map f | f in known :: CountOf(c, f);
    if known == {} {
      assert c == map[] && wide == map[];
    } else {
      var f :| f in known;
      SumRemove(wide, f);
      assert wide - {f} == map g | g in known - {f} :: CountOf(c - {f}, g);
      CountsOverKnown(c - {f}, known - {f});
      if f in c {
        SumRemove(c, f);
      } else {
        assert c - {f} == c;
      }
    }
  }

  lemma SumsWithout(objects: map<Uid, Counts>, known: set<string>, u: Uid)
    requires u in objects && objects[u].Keys <= known
    ensures Sum(FamilySums(objects, known)) == Sum(FamilySums(objects - {u}, known)) + Sum(objects[u])
  {
    hide Sum, CountOf, FamilySum;
    var wide := map f | f in known :: CountOf(objects[u], f);
    var narrow := FamilySums(objects - {u}, known);
    CountsOverKnown(objects[u], known);
    SumAdd(narrow, wide);
    forall f | f in known ensures FamilySum(objects, f) == narrow[f] + wide[f] {
      FamilySumRemove(objects, u, f);
    }
    assert FamilySums(objects, known) == map f | f in narrow :: narrow[f] + wide[f];
  }

  /** Summing by family or by object gives the same. */
  lemma {:induction false} SumsExchange(objects: map<Uid, Counts>, known: set<string>)
    requires Closed(objects, known)
    ensures Sum(FamilySums(objects, known)) == TotalSum(objects)
    decreases |objects|
  {
    hide Sum, FamilySums;
    if objects == map[] {
      NoObjects(known);
      EmptySum();
      assert TotalColumn(objects) == map[];
    } else {
      hide TotalSum;
      var u :| u in objects;
      SumsExchange(objects - {u}, known);
      TotalSumRemove(objects, u);
      SumsWithout(objects, known, u);
    }
  }

  ghost function WrapAll(m: map<string, int>): map<string, int> {
    map k | k in m :: Wrap64(m[k])
  }

  lemma {:induction false} WrappedSum(m: map<string, int>)
    ensures Same(Sum(WrapAll(m)), Sum(m))
    decreases |m|
  {
    hide Sum, Wrap64;
    if m == map[] {
      assert WrapAll(m) == map[];
    } else {
      var k :| k in m;
      SumRemove(m, k);
      SumRemove(WrapAll(m), k);
      assert WrapAll(m) - {k} == WrapAll(m - {k});
      WrappedSum(m - {k});
      WrapSame(m[k]);
      SameAdd(Wrap64(m[k]), m[k], Sum(WrapAll(m - {k})), Sum(m - {k}));
    }
  }

  lemma FamiliesMakeTheStore(st: State)
    requires Closed(st.objects, st.known)
    ensures Same(Sum(FamilyCounts(st)), StoreCount(st))
  {
    hide Sum, Wrap64;
    SumsExchange(st.objects, st.known);
    WrappedSum(FamilySums(st.objects, st.known));
    assert FamilyCounts(st) == WrapAll(FamilySums(st.objects, st.known));
    WrapSame(TotalSum(st.objects));
  }

  // ---- sums of accumulated maps ---------------------------------------------------------

  lemma MergedOne(a: map<string, int>, b: map<string, int>, f: string)
    requires f in b
    ensures Merged(a, b) == Merged(a, b - {f})[f := Wrap64(CountOf(a, f) + b[f])]
    ensures CountOf(Merged(a, b - {f}), f) == CountOf(a, f) && (f in Merged(a, b - {f}) <==> f in a)
  {
    hide Wrap64;
  }

  lemma MergedOneSum(a: map<string, int>, b: map<string, int>, f: string)
    requires f in b
    ensures Sum(Merged(a, b)) == Sum(Merged(a, b - {f})) + Wrap64(CountOf(a, f) + b[f]) - CountOf(a, f)
  {
    hide Sum, Wrap64, Merged;
    MergedOne(a, b, f);
    SumInsert(Merged(a, b - {f}), f, Wrap64(CountOf(a, f) + b[f]));
  }

  lemma {:induction false} MergedSum(a: map<string, int>, b: map<string, int>)
    ensures Same(Sum(Merged(a, b)), Sum(a) + Sum(b))
    decreases |b|
  {
    hide Sum, Merged, Same, CountOf;
    if b == map[] {
      MergedNothing(a);
    } else {
      var f :| f in b;
      MergedSum(a, b - {f});
      SumRemove(b, f);
      MergedOneSum(a, b, f);
      OneMoreSum(Sum(Merged(a, b - {f})), Sum(a) + Sum(b - {f}), CountOf(a, f), b[f]);
    }
  }

  lemma MergedNothing(a: map<string, int>)
    ensures Same(Sum(Merged(a, map[])), Sum(a) + Sum<string>(map[]))
  {
    hide Sum;
    EmptySum();
    assert Merged(a, map[]) == a;
  }

  lemma OneMoreSum(sum: int, other: int, from: int, more: int)
    requires Same(sum, other)
    ensures Same(sum + Wrap64(from + more) - from, other + more)
  {
    WrapSame(from + more);
    hide Wrap64;
    SameAdd(sum - from, sum - from, Wrap64(from + more), from + more);
    SameAdd(sum, other, more, more);
    assert sum - from + (from + more) == sum + more;
  }

  /** The monitor's total is the sum of its per-family figures. */
  lemma {:induction false} TotalIsPerFamily(sts: seq<State>)
    requires forall i | 0 <= i < |sts| :: Closed(sts[i].objects, sts[i].known)
    ensures Total(sts) == Wrap64(Sum(PerFamily(sts)))
  {
    hide Sum, Wrap64, Merged, FamilyCounts, StoreCount, Closed;
    if sts == [] {
      assert PerFamily(sts) == map[];
      EmptySum();
      SmallWrap();
    } else {
      var n := |sts| - 1;
      var before, st := sts[..n], sts[n];
      TotalIsPerFamily(before);
      FamiliesMakeTheStore(st);
      MergedSum(PerFamily(before), FamilyCounts(st));
      WrapSame(Sum(PerFamily(before)));
      SameAdd(Total(before), Sum(PerFamily(before)), StoreCount(st), Sum(FamilyCounts(st)));
    }
  }

  // ---- per-store figures under shared keys -------------------------------------------------

  /** The sum of the figures that a later store of the same key overwrites. */
  ghost function Overwritten(ids: seq<string>, sts: seq<State>): int
    requires |ids| == |sts|
  {
    if sts == [] then 0
    else (if ids[0] in ids[1..] then StoreCount(sts[0]) else 0) + Overwritten(ids[1..], sts[1..])
  }

  ghost function AllCounts(sts: seq<State>): int {
    if sts == [] then 0 else StoreCount(sts[0]) + AllCounts(sts[1..])
  }

  lemma {:induction false} AllCountsLast(sts: seq<State>, st: State)
    ensures AllCounts(sts + [st]) == AllCounts(sts) + StoreCount(st)
  {
    hide StoreCount;
    if sts == [] {
      assert sts + [st] == [st];
    } else {
      AllCountsLast(sts[1..], st);
      assert (sts + [st])[1..] == sts[1..] + [st];
    }
  }

  lemma {:induction false} TotalIsAllCounts(sts: seq<State>)
    ensures Total(sts) == Wrap64(AllCounts(sts))
  {
    hide StoreCount, Wrap64;
    if sts == [] {
      SmallWrap();
    } else {
      var n := |sts| - 1;
      TotalIsAllCounts(sts[..n]);
      AllCountsLast(sts[..n], sts[n]);
      assert sts == sts[..n] + [sts[n]];
      WrapAdd(AllCounts(sts[..n]), StoreCount(sts[n]));
    }
  }

  /** A store in front shows only if no other has its key. */
  lemma {:induction false} OneInFront(id: string, st: State, ids: seq<string>, sts: seq<State>)
    requires |ids| == |sts|
    ensures PerStore([id] + ids, [st] + sts)
         == if id in ids then PerStore(ids, sts) else PerStore(ids, sts)[id := StoreCount(st)]
    ensures PerStore(ids, sts).Keys == set i | 0 <= i < |ids| :: ids[i]
    decreases |ids|
  {
    hide StoreCount, PerStore;
    var n := |ids| - 1;
    PerStoreNone();
    if ids == [] {
      PerStoreLast([], [], id, st);
      assert [id] + ids == [] + [id] && [st] + sts == [] + [st];
    } else {
      OneInFront(id, st, ids[..n], sts[..n]);
      assert ids == ids[..n] + [ids[n]] && sts == sts[..n] + [sts[n]];
      PerStoreLast(ids[..n], sts[..n], ids[n], sts[n]);
      assert [id] + ids == [id] + ids[..n] + [ids[n]] && [st] + sts == [st] + sts[..n] + [sts[n]];
      PerStoreLast([id] + ids[..n], [st] + sts[..n], ids[n], sts[n]);
    }
  }

  lemma PerStoreNone()
    ensures PerStore([], []) == map[]
  {
  }

  lemma PerStoreLast(ids: seq<string>, sts: seq<State>, id: string, st: State)
    requires |ids| == |sts|
    ensures PerStore(ids + [id], sts + [st]) == PerStore(ids, sts)[id := StoreCount(st)]
  {
    assert (ids + [id])[..|ids|] == ids && (sts + [st])[..|sts|] == sts;
  }

  lemma {:induction false} PerStoreSum(ids: seq<string>, sts: seq<State>)
    requires |ids| == |sts|
    ensures Sum(PerStore(ids, sts)) + Overwritten(ids, sts) == AllCounts(sts)
    decreases |ids|
  {
    hide Sum, StoreCount, PerStore;
    if sts == [] {
      NoStores(ids, sts);
    } else {
      assert ids == [ids[0]] + ids[1..] && sts == [sts[0]] + sts[1..];
      OneInFront(ids[0], sts[0], ids[1..], sts[1..]);
      PerStoreSum(ids[1..], sts[1..]);
      SumInsert(PerStore(ids[1..], sts[1..]), ids[0], StoreCount(sts[0]));
    }
  }

  lemma NoStores(ids: seq<string>, sts: seq<State>)
    requires |ids| == |sts| == 0
    ensures Sum(PerStore(ids, sts)) == 0
  {
    EmptySum();
  }

  lemma NothingAdded(sum: int, more: int)
    ensures Wrap64(sum + more) == Wrap64(sum) <==> Wrap64(more) == 0
  {
    var a, b, x := Wrap64(sum + more), Wrap64(sum), Wrap64(more);
    WrapAdd(sum, more);
    WrapAdd(more, b);
    assert Wrap64(x + b) == a;
    assert b == Wrap64(b);
  }

  /** Whatever the store keys: the monitor's total is the sum of its per-store
      figures exactly when the figures overwritten under a shared key add up to 0,
      as int64. */
  lemma SharedKey(ids: seq<string>, sts: seq<State>)
    requires |ids| == |sts|
    ensures Total(sts) == Wrap64(Sum(PerStore(ids, sts))) <==> Wrap64(Overwritten(ids, sts)) == 0
  {
    hide Sum, Wrap64, StoreCount, PerStore, Total, Overwritten, AllCounts;
    TotalIsAllCounts(sts);
    PerStoreSum(ids, sts);
    NothingAdded(Sum(PerStore(ids, sts)), Overwritten(ids, sts));
  }

  lemma {:induction false} NothingOverwritten(ids: seq<string>, sts: seq<State>)
    requires |ids| == |sts| && Distinct(ids)
    ensures Overwritten(ids, sts) == 0
    decreases |ids|
  {
    hide StoreCount;
    if sts != [] {
      NothingOverwritten(ids[1..], sts[1..]);
    }
  }

  /** With distinct store keys the monitor's total is the sum of its per-store
      figures. */
  lemma TotalIsPerStore(ids: seq<string>, sts: seq<State>)
    requires |ids| == |sts| && Distinct(ids)
    ensures Total(sts) == Wrap64(Sum(PerStore(ids, sts)))
  {
    hide Sum, Wrap64, PerStore, Total, Overwritten, Distinct;
    SharedKey(ids, sts);
    NothingOverwritten(ids, sts);
    SmallWrap();
  }

  lemma {:induction false} PerFamilyKeys(sts: seq<State>, f: string)
    ensures f in PerFamily(sts) <==> exists i :: 0 <= i < |sts| && f in sts[i].known
  {
    if sts != [] {
      hide FamilyCount;
      var n := |sts| - 1;
      PerFamilyKeys(sts[..n], f);
      assert sts == sts[..n] + [sts[n]];
    }
  }

  lemma MergedAt(a: map<string, int>, b: map<string, int>, f: string)
    ensures CountOf(Merged(a, b), f) == if f in b then Wrap64(CountOf(a, f) + b[f]) else CountOf(a, f)
  {
  }

  /** The family's count over all stores. */
  lemma {:induction false} PerFamilyIs(sts: seq<State>, f: string)
    ensures CountOf(PerFamily(sts), f) == Wrap64(FamilyOverStores(sts, f))
  {
    if sts == [] {
      SmallWrap();
    } else {
      hide FamilyCount, Wrap64, Merged;
      var n := |sts| - 1;
      PerFamilyIs(sts[..n], f);
      MergedAt(PerFamily(sts[..n]), FamilyCounts(sts[n]), f);
      if f in sts[n].known {
        WrapAdd(FamilyOverStores(sts[..n], f), FamilyCount(sts[n], f));
      }
    }
  }

  ghost function FamilyOverStores(sts: seq<State>, f: string): int {
    if sts == [] then 0
    else
      var st := sts[|sts| - 1];
      FamilyOverStores(sts[..|sts| - 1], f) + (if f in st.known then FamilyCount(st, f) else 0)
  }

  /** The limit shown for a family is the largest any store sets for it. */
  lemma {:induction false} PerFamilyLimitIs(sts: seq<State>, f: string)
    ensures f in PerFamilyLimit(sts) <==> exists i :: 0 <= i < |sts| && HasOwnLimit(sts[i].limits, f)
    ensures f in PerFamilyLimit(sts) ==>
              && (exists i ::
                    0 <= i < |sts| && HasOwnLimit(sts[i].limits, f)
                    && sts[i].limits.family[f] == PerFamilyLimit(sts)[f])
              && forall i | 0 <= i < |sts| && HasOwnLimit(sts[i].limits, f) ::
                   sts[i].limits.family[f] <= PerFamilyLimit(sts)[f]
  {
    if sts != [] {
      var n := |sts| - 1;
      PerFamilyLimitIs(sts[..n], f);
      RaisedAt(PerFamilyLimit(sts[..n]), sts[n].limits, f);
      hide Raised, HasOwnLimit;
      assert sts == sts[..n] + [sts[n]];
    }
  }

  lemma RaisedAt(a: map<string, int>, l: Limits, f: string)
    requires f in a ==> a[f] > 0
    ensures f in Raised(a, l.family) <==> f in a || HasOwnLimit(l, f)
    ensures f in Raised(a, l.family) ==>
              Raised(a, l.family)[f] == if HasOwnLimit(l, f) && l.family[f] > CountOf(a, f) then l.family[f] else a[f]
  {
  }
}
