/** What soft cutoff guarantees about exposed output: enforcement only starts
    with the next rendering (internal/store.go:90-94), so the cached output may
    overshoot a limit, but never by more than one object's worth. */
module SoftCutoff {
  import opened Basics
  import opened Float
  import opened FloatReach
  import opened Tracker
  import opened StoreMachine

  // ---- lines visible in the cache ----------------------------------------------

  function LinesAt(row: seq<string>, i: nat): nat {
    if i < |row| then Lines(row[i]) else 0
  }

  function RowLines(row: seq<string>): nat {
    if row == [] then 0 else RowLines(row[..|row| - 1]) + Lines(row[|row| - 1])
  }

  ghost function FamilyLines(cache: map<Uid, seq<string>>, i: nat): map<Uid, int> {
    map u | u in cache :: LinesAt(cache[u], i)
  }

  ghost function ObjectLines(cache: map<Uid, seq<string>>): map<Uid, int> {
    map u | u in cache :: RowLines(cache[u])
  }

  /** Sample lines a scrape would show for family i. */
  ghost function Visible(cache: map<Uid, seq<string>>, i: nat): int {
    Sum(FamilyLines(cache, i))
  }

  /** Sample lines a scrape would show for the store. */
  ghost function VisibleTotal(cache: map<Uid, seq<string>>): int {
    Sum(ObjectLines(cache))
  }

  lemma LinesNonNegative(cache: map<Uid, seq<string>>, i: nat)
    ensures forall u | u in cache :: 0 <= FamilyLines(cache, i)[u]
    ensures forall u | u in cache :: 0 <= ObjectLines(cache)[u]
  {
  }

  lemma VisibleInsert(cache: map<Uid, seq<string>>, u: Uid, row: seq<string>, i: nat)
    ensures Visible(cache[u := row], i) <= Visible(cache, i) + LinesAt(row, i)
    ensures VisibleTotal(cache[u := row]) <= VisibleTotal(cache) + RowLines(row)
  {
    hide Sum, LinesAt, RowLines;
    LinesNonNegative(cache, i);
    assert FamilyLines(cache[u := row], i) == FamilyLines(cache, i)[u := LinesAt(row, i)];
    assert ObjectLines(cache[u := row]) == ObjectLines(cache)[u := RowLines(row)];
    SumInsert(FamilyLines(cache, i), u, LinesAt(row, i));
    SumInsert(ObjectLines(cache), u, RowLines(row));
  }

  lemma VisibleRemove(cache: map<Uid, seq<string>>, u: Uid, i: nat)
    ensures Visible(cache - {u}, i) <= Visible(cache, i)
    ensures VisibleTotal(cache - {u}) <= VisibleTotal(cache)
  {
    hide Sum;
    SumMono(FamilyLines(cache - {u}, i), FamilyLines(cache, i));
    SumMono(ObjectLines(cache - {u}), ObjectLines(cache));
  }

  // ---- visible lines never exceed the counts on record ---------------------------

  lemma RowWithinCounts<O(!new)>(m: Machine<O>, obj: O, row: seq<string>, c: Counts, i: nat)
    requires Faithful(m) && Distinct(m.names) && Recorded(m, obj, row, c)
    ensures i < |m.names| ==> LinesAt(row, i) <= CountOf(c, m.names[i])
    ensures RowLines(row) <= Sum(c)
    ensures forall f | f in c :: 0 <= c[f]
  {
    hide Lines, Sum;
    var g, texts, counts :| FromRendering(m, obj, row, c, g, texts, counts);
    CountMapFacts(m.names, counts);
    EmptyText();
    RowLinesWithin(m.names, row, counts);
  }

  lemma EmptyText()
    ensures Lines("") == 0
  {
  }

  lemma {:induction false} RowLinesWithin(names: seq<string>, row: seq<string>, counts: seq<nat>)
    requires |names| == |row| == |counts| && Distinct(names)
    requires forall i | 0 <= i < |row| :: Lines(row[i]) <= counts[i]
    ensures RowLines(row) <= Sum(CountMap(names, counts))
  {
    hide Sum, Lines;
    var n := |names| - 1;
    if n >= 0 {
      var c := CountMap(names[..n], counts[..n]);
      RowLinesWithin(names[..n], row[..n], counts[..n]);
      CountMapFacts(names[..n], counts[..n]);
      assert names[n] !in c;
      SumInsert(c, names[n], counts[n]);
    } else {
      EmptySum();
    }
  }

  lemma VisibleWithinCounts<O(!new)>(m: Machine<O>, s: Snapshot<O>, i: nat)
    requires Faithful(m) && Distinct(m.names) && Inv(m, s)
    ensures i < |m.names| ==> Visible(s.cache, i) <= FamilySum(s.tracker.objects, m.names[i])
    ensures VisibleTotal(s.cache) <= TotalSum(s.tracker.objects)
  {
    hide Sum, RowLines, LinesAt, Recorded, Faithful, Quiescent;
    forall u | u in s.cache
      ensures i < |m.names| ==> 0 <= LinesAt(s.cache[u], i) <= CountOf(s.tracker.objects[u], m.names[i])
      ensures 0 <= RowLines(s.cache[u]) <= Sum(s.tracker.objects[u])
    {
      RowWithinCounts(m, s.live[u], s.cache[u], s.tracker.objects[u], i);
    }
    SumMono(ObjectLines(s.cache), TotalColumn(s.tracker.objects));
    if i < |m.names| {
      SumMono(FamilyLines(s.cache, i), FamilyColumn(s.tracker.objects, m.names[i]));
    }
  }

  // ---- a clear flag means the last check was within the limit ---------------------

  lemma NotCutWithinLimit<O(!new)>(m: Machine<O>, s: Snapshot<O>, i: nat)
    requires Faithful(m) && Distinct(m.names) && Inv(m, s) && Fits(s.tracker)
    requires i < |m.names| && HasOwnLimit(m.limits, m.names[i])
    requires !s.flags[i]
    ensures Visible(s.cache, i) <= Reach(m.limits.family[m.names[i]])
  {
    hide Sum, Judge, Reach, AllRecorded, FamilySum, Faithful;
    var f, limit := m.names[i], m.limits.family[m.names[i]];
    VisibleWithinCounts(m, s, i);
    if s.generation == 0 {
      assert FamilyLines(s.cache, i) == map[];
      EmptySum();
    } else {
      assert f in s.tracker.known;
      assert f !in Checked(s.tracker).cut;
      assert !FamilyExceeded(s.tracker, f);
      var n := FamilySum(s.tracker.objects, f);
      assert 0 <= Visible(s.cache, i) by {
        EmptySum();
        SumMono(map[], FamilyLines(s.cache, i));
      }
      CutoffBeyondReach(n, limit, m.limits.warn);
    }
  }

  lemma StoreWithinLimit<O(!new)>(m: Machine<O>, s: Snapshot<O>)
    requires Faithful(m) && Distinct(m.names) && Inv(m, s) && Fits(s.tracker)
    requires 0 < m.limits.store
    requires !StoreExceeded(s.tracker)
    ensures VisibleTotal(s.cache) <= Reach(m.limits.store)
  {
    hide Sum, Judge, Reach, AllRecorded, TotalSum, Faithful;
    VisibleWithinCounts(m, s, 0);
    assert 0 <= VisibleTotal(s.cache) by {
      EmptySum();
      SumMono(map[], ObjectLines(s.cache));
    }
    CutoffBeyondReach(TotalSum(s.tracker.objects), m.limits.store, m.limits.warn);
  }

  // ---- the bounds ------------------------------------------------------------------

  /** No single Add produced more than most samples for family f. */
  ghost predicate FamilyAddsAtMost<O>(ops: seq<Op<O>>, states: seq<Snapshot<O>>, f: string, most: int)
    requires |states| == |ops| + 1
  {
    forall j | 0 <= j < |ops| && ops[j].Add? ::
      ops[j].uid in states[j + 1].tracker.objects && CountOf(states[j + 1].tracker.objects[ops[j].uid], f) <= most
  }

  /** No single Add produced more than most samples over all families. */
  ghost predicate AddsAtMost<O>(ops: seq<Op<O>>, states: seq<Snapshot<O>>, most: int)
    requires |states| == |ops| + 1
  {
    forall j | 0 <= j < |ops| && ops[j].Add? ::
      ops[j].uid in states[j + 1].tracker.objects && Sum(states[j + 1].tracker.objects[ops[j].uid]) <= most
  }

  lemma FamilyStep<O(!new)>(m: Machine<O>, s: Snapshot<O>, op: Op<O>, s': Snapshot<O>, i: nat, most: nat)
    requires Faithful(m) && Distinct(m.names) && Inv(m, s) && Inv(m, s') && Step(m, s, op, s')
    requires i < |m.names| && HasOwnLimit(m.limits, m.names[i])
    requires Fits(s.tracker)
    requires op.Add? ==> op.uid in s'.tracker.objects && CountOf(s'.tracker.objects[op.uid], m.names[i]) <= most
    requires Visible(s.cache, i) <= Reach(m.limits.family[m.names[i]]) + most
    ensures Visible(s'.cache, i) <= Reach(m.limits.family[m.names[i]]) + most
  {
    hide Sum, Judge, Reach, Checked, Faithful, Recorded, AllRecorded, Outcomes, Visible, VisibleTotal;
    match op
    case Rejected =>
    case Check =>
    case Delete(uid) => VisibleRemove(s.cache, uid, i);
    case Add(uid, obj) =>
      AddedRow(m, s, uid, obj, s');
      VisibleInsert(s.cache, uid, s'.cache[uid], i);
      if s.flags[i] {
        EmptyText();
      } else {
        NotCutWithinLimit(m, s, i);
        RowWithinCounts(m, obj, s'.cache[uid], s'.tracker.objects[uid], i);
      }
  }

  /** What an Add leaves in the cache: one row, blank where the flag was set. */
  lemma AddedRow<O(!new)>(m: Machine<O>, s: Snapshot<O>, uid: Uid, obj: O, s': Snapshot<O>)
    requires |s.flags| == |m.names|
    requires Inv(m, s') && Step(m, s, Add(uid, obj), s')
    ensures uid in s'.cache && s'.cache == s.cache[uid := s'.cache[uid]]
    ensures uid in s'.tracker.objects && Recorded(m, obj, s'.cache[uid], s'.tracker.objects[uid])
    ensures |s'.cache[uid]| == |m.names| && forall i | 0 <= i < |m.names| :: s.flags[i] ==> s'.cache[uid][i] == ""
  {
    hide Recorded, Checked, Quiescent, CountMap;
    var texts, counts :| Outcomes(m, s.generation + 1, obj, texts, counts)
        && s' == AddWith(m, s, uid, obj, texts, counts);
    assert s'.live[uid] == obj;
  }

  /** Over every run the samples cached for a family with limit T never exceed the
      reach of T, which is T itself below 2^53, plus the largest count one Add
      produced for it. */
  lemma {:induction false} FamilyBound<O(!new)>(m: Machine<O>, ops: seq<Op<O>>, states: seq<Snapshot<O>>,
                                          i: nat, most: nat, n: nat)
    requires Faithful(m) && Distinct(m.names) && IsRun(m, ops, states) && n < |states|
    requires i < |m.names| && HasOwnLimit(m.limits, m.names[i])
    requires forall j | 0 <= j < |states| :: Fits(states[j].tracker)
    requires FamilyAddsAtMost(ops, states, m.names[i], most)
    ensures Visible(states[n].cache, i) <= Reach(m.limits.family[m.names[i]]) + most
    decreases n
  {
    hide Sum, Reach, Faithful, Inv, Step;
    if n == 0 {
      assert FamilyLines(states[0].cache, i) == map[];
      EmptySum();
    } else {
      FamilyBound(m, ops, states, i, most, n - 1);
      RunKeepsInv(m, ops, states, n - 1);
      RunKeepsInv(m, ops, states, n);
      FamilyStep(m, states[n - 1], ops[n - 1], states[n], i, most);
    }
  }

  lemma StoreStep<O(!new)>(m: Machine<O>, s: Snapshot<O>, op: Op<O>, s': Snapshot<O>, most: nat)
    requires Faithful(m) && Distinct(m.names) && Inv(m, s) && Inv(m, s') && Step(m, s, op, s')
    requires 0 < m.limits.store && Fits(s.tracker)
    requires op.Add? ==> op.uid in s'.tracker.objects && Sum(s'.tracker.objects[op.uid]) <= most
    requires VisibleTotal(s.cache) <= Reach(m.limits.store) + most
    ensures VisibleTotal(s'.cache) <= Reach(m.limits.store) + most
  {
    hide Sum, Judge, Reach, Faithful, Recorded, AllRecorded, Outcomes, StoreExceeded, Visible, VisibleTotal;
    match op
    case Rejected =>
    case Check =>
    case Delete(uid) => VisibleRemove(s.cache, uid, 0);
    case Add(uid, obj) =>
      AddedRow(m, s, uid, obj, s');
      VisibleInsert(s.cache, uid, s'.cache[uid], 0);
      if StoreExceeded(s.tracker) {
        AllCut(m, s);
        BlankRow(s'.cache[uid]);
      } else {
        StoreWithinLimit(m, s);
        RowWithinCounts(m, obj, s'.cache[uid], s'.tracker.objects[uid], 0);
      }
  }

  lemma EmptyStoreWithinLimit(st: State)
    requires st.objects == map[]
    ensures !StoreExceeded(st)
  {
    hide Judge;
    if st.limits.store > 0 {
      assert TotalColumn(st.objects) == map[];
      EmptySum();
      CutoffBeyondReach(0, st.limits.store, st.limits.warn);
    }
  }

  /** A store over its limit has every family cut off. */
  lemma AllCut<O(!new)>(m: Machine<O>, s: Snapshot<O>)
    requires Inv(m, s) && m.limits.store > 0 && StoreExceeded(s.tracker)
    ensures forall i | 0 <= i < |s.flags| :: s.flags[i]
  {
    hide Sum, Judge, AllRecorded;
    if s.generation == 0 {
      EmptyStoreWithinLimit(s.tracker);
    } else {
      forall i | 0 <= i < |s.flags| ensures s.flags[i] {
        assert m.names[i] in s.tracker.known;
        assert m.names[i] in Checked(s.tracker).cut;
      }
    }
  }

  lemma {:induction false} BlankRow(row: seq<string>)
    requires forall i | 0 <= i < |row| :: row[i] == ""
    ensures RowLines(row) == 0
  {
    if row != [] {
      BlankRow(row[..|row| - 1]);
    }
  }

  /** Over every run all cached samples of a store with limit S never exceed the
      reach of S plus the largest number of samples one Add produced. */
  lemma {:induction false} StoreBound<O(!new)>(m: Machine<O>, ops: seq<Op<O>>, states: seq<Snapshot<O>>, most: nat,
                                        n: nat)
    requires Faithful(m) && Distinct(m.names) && IsRun(m, ops, states) && n < |states|
    requires 0 < m.limits.store
    requires forall j | 0 <= j < |states| :: Fits(states[j].tracker)
    requires AddsAtMost(ops, states, most)
    ensures VisibleTotal(states[n].cache) <= Reach(m.limits.store) + most
    decreases n
  {
    hide Sum, Reach, Faithful, Inv, Step;
    if n == 0 {
      assert ObjectLines(states[0].cache) == map[];
      EmptySum();
    } else {
      StoreBound(m, ops, states, most, n - 1);
      RunKeepsInv(m, ops, states, n - 1);
      RunKeepsInv(m, ops, states, n);
      StoreStep(m, states[n - 1], ops[n - 1], states[n], most);
    }
  }
}
