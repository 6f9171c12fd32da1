/** The controller's cardinality round for one monitor (internal/events.go):
    aggregate, compare with the limits, write the status. */
module Events {
  import opened Basics
  import opened Float
  import opened Resources
  import opened Tracker
  import opened Conservation
  import opened Manager
  import opened Status
  import Family
  import opened StoreMachine
  import opened Store
  import opened Configurer

  datatype Aggregation = Aggregation(
    totalCardinality: int,
    perStore: map<string, int>, perStoreLimit: map<string, int>,
    perFamily: map<string, int>, perFamilyLimit: map<string, int>,
    cutoffFamilies: seq<string>,
    violations: seq<Violation>)

  // ---- what an aggregation reports ----------------------------------------------------

  function Identifiers(stores: seq<StoreType>): (ids: seq<string>)
    ensures |ids| == |stores|
  {
    seq(|stores|, i requires 0 <= i < |stores| => stores[i].Identifier())
  }

  ghost function AllCut(sts: seq<State>): multiset<string> {
    if sts == [] then multiset{} else AllCut(sts[..|sts| - 1]) + multiset(sts[|sts| - 1].cut)
  }

  ghost function AllViolations(sts: seq<State>): multiset<Violation> {
    if sts == [] then multiset{} else AllViolations(sts[..|sts| - 1]) + Violations(sts[|sts| - 1])
  }

  function PerStoreLimit(ids: seq<string>, sts: seq<State>): map<string, int>
    requires |ids| == |sts|
  {
    if sts == [] then map[]
    else PerStoreLimit(ids[..|sts| - 1], sts[..|sts| - 1])[ids[|sts| - 1] := sts[|sts| - 1].limits.store]
  }

  /** The figures are those of the states before the aggregation's own check; the
      families listed as cut off are therefore those of the previous check. */
  ghost predicate Reports(ids: seq<string>, sts: seq<State>, agg: Aggregation)
    requires |ids| == |sts|
  {
    && agg.totalCardinality == Total(sts)
    && agg.perStore == PerStore(ids, sts) && agg.perStoreLimit == PerStoreLimit(ids, sts)
    && agg.perFamily == PerFamily(sts) && agg.perFamilyLimit == PerFamilyLimit(sts)
    && multiset(agg.cutoffFamilies) == AllCut(sts)
    && multiset(agg.violations) == AllViolations(sts)
  }

  lemma NothingReported()
    ensures Reports([], [], Aggregation(0, map[], map[], map[], map[], [], []))
  {
  }

  lemma OneMoreStore(ids: seq<string>, sts: seq<State>, agg: Aggregation, id: string, st: State,
                     perFamily: map<string, int>, perFamilyLimit: map<string, int>, cut: seq<string>,
                         violations: seq<Violation>)
    requires |ids| == |sts| && Reports(ids, sts, agg)
    requires perFamily == Merged(agg.perFamily, FamilyCounts(st))
               && perFamilyLimit == Raised(agg.perFamilyLimit, st.limits.family)
    requires multiset(cut) == multiset(st.cut) && multiset(violations) == Violations(st)
    ensures Reports(ids + [id], sts + [st], Aggregation(
              Wrap64(agg.totalCardinality + StoreCount(st)),
              agg.perStore[id := StoreCount(st)], agg.perStoreLimit[id := st.limits.store],
              perFamily, perFamilyLimit, agg.cutoffFamilies + cut, agg.violations + violations))
  {
    hide Merged, Raised, StoreCount, FamilyCounts, Violations, Wrap64;
    assert (ids + [id])[..|ids|] == ids && (sts + [st])[..|sts|] == sts;
  }

  // ---- the maps ---------------------------------------------------------------------------

  method AddInto(sums: map<string, int>, counts: map<string, int>) returns (sums': map<string, int>)
    ensures sums' == Merged(sums, counts)
  {
    hide Wrap64, Merged, CountOf;
    sums' := sums;
    var rest := counts.Keys;
    NothingAdded(sums, counts);
    while rest != {}
      invariant rest <= counts.Keys && sums' == Merged(sums, counts - rest)
      decreases rest
    {
      var f :| f in rest;
      assert counts - (rest - {f}) - {f} == counts - rest;
      MergedOne(sums, counts - (rest - {f}), f);
      sums' := sums'[f := Wrap64(CountOf(sums', f) + counts[f])];
      rest := rest - {f};
    }
    assert counts - rest == counts;
  }

  lemma NothingAdded(sums: map<string, int>, counts: map<string, int>)
    ensures Merged(sums, counts - counts.Keys) == sums && Raised(sums, counts - counts.Keys) == sums
  {
    assert counts - counts.Keys == map[];
  }

  method RaiseTo(highest: map<string, int>, limits: map<string, int>) returns (highest': map<string, int>)
    ensures highest' == Raised(highest, limits)
  {
    hide Raised, CountOf;
    highest' := highest;
    var rest := limits.Keys;
    NothingAdded(highest, limits);
    while rest != {}
      invariant rest <= limits.Keys && highest' == Raised(highest, limits - rest)
      decreases rest
    {
      var f :| f in rest;
      assert limits - (rest - {f}) - {f} == limits - rest;
      RaisedOne(highest, limits - (rest - {f}), f);
      if limits[f] > CountOf(highest', f) {
        highest' := highest'[f := limits[f]];
      }
      rest := rest - {f};
    }
    assert limits - rest == limits;
  }

  lemma RaisedOne(a: map<string, int>, b: map<string, int>, f: string)
    requires f in b
    ensures Raised(a, b)
              == if b[f] > CountOf(Raised(a, b - {f}), f) then Raised(a, b - {f})[f := b[f]] else Raised(a, b - {f})
  {
    assert CountOf(Raised(a, b - {f}), f) == CountOf(a, f);
  }

  // ---- the stores ----------------------------------------------------------------------------

  /** The objects an aggregation may change. */
  ghost function Trackers(stores: seq<StoreType>): (r: set<CardinalityTracker>)
    ensures forall i | 0 <= i < |stores| :: stores[i].cardinalityTracker in r
  {
    set s: StoreType | s in stores :: s.cardinalityTracker
  }

  ghost function Families(stores: seq<StoreType>): (r: set<Family.FamilyType>)
    ensures forall i, f | 0 <= i < |stores| && f in stores[i].families :: f in r
  {
    set s: StoreType, f: Family.FamilyType | s in stores && f in s.families :: f
  }

  /** The aggregation has checked the first done stores and none of the others. */
  ghost predicate Stage(stores: seq<StoreType>, machines: seq<Machine<Object>>, befores: seq<Snapshot<Object>>,
                        done: nat)
    requires |machines| == |befores| == |stores|
    reads stores, Trackers(stores), Families(stores)
  {
    forall i | 0 <= i < |stores| :: Checks(stores[i], machines[i], befores[i], i < done)
  }

  ghost predicate Checks(store: StoreType, m: Machine<Object>, before: Snapshot<Object>, done: bool)
    reads store, store.cardinalityTracker, store.families
  {
    && store.Valid() && store.Machine() == m
    && if done then Step(m, before, Op.Check, store.Abs()) else store.Abs() == before
  }

  /** One store's part in the aggregation. */
  method ReadAndCheck(store: StoreType)
      returns (total: int, limit: int, cards: map<string, int>, limits: map<string, int>,
                                                 cut: seq<string>, violations: seq<Violation>)
    requires store.Valid()
    modifies store.cardinalityTracker, store.families
    ensures store.Valid() && store.Machine() == old(store.Machine())
    ensures Step(old(store.Machine()), old(store.Abs()), Op.Check, store.Abs())
    ensures var st := old(store.cardinalityTracker.Abs());
            && store.cardinalityTracker.Abs() == Checked(st)
            && total == StoreCount(st) && limit == st.limits.store && cards == FamilyCounts(st)
                && limits == st.limits.family
            && multiset(cut) == multiset(st.cut) && multiset(violations) == Violations(st)
  {
    hide Checked, StoreCount, FamilyCounts, Violations, Match;
    total := store.cardinalityTracker.GetStoreTotal();
    limit := store.cardinalityTracker.storeThreshold;
    cards := store.cardinalityTracker.GetAllFamilyCardinalities();
    limits := store.cardinalityTracker.familyThreshold;
    cut := store.cardinalityTracker.GetCutoffFamilies();
    violations := store.Recheck();
  }

  lemma Pending(store: StoreType, m: Machine<Object>, before: Snapshot<Object>)
    requires Checks(store, m, before, false)
    ensures store.Valid() && store.Machine() == m && store.Abs() == before
              && store.cardinalityTracker.Abs() == before.tracker
  {
  }

  lemma JustChecked(store: StoreType, m: Machine<Object>, before: Snapshot<Object>)
    requires store.Valid() && store.Machine() == m && Step(m, before, Op.Check, store.Abs())
    ensures Checks(store, m, before, true)
  {
  }

  lemma Unrelated(stores: seq<StoreType>, i: nat, j: nat)
    requires Independent(stores) && i < |stores| && j < |stores| && i != j
    ensures stores[i] != stores[j] && stores[i].cardinalityTracker != stores[j].cardinalityTracker
    ensures forall f | f in stores[j].families :: f !in stores[i].families
    ensures forall k, l | 0 <= k < |stores[j].families|
              && 0 <= l < |stores[i].families| :: stores[j].families[k] != stores[i].families[l]
  {
    forall k, l | 0 <= k < |stores[j].families| && 0 <= l < |stores[i].families|
      ensures stores[j].families[k] != stores[i].families[l]
    {
      assert stores[j].families[k] in stores[j].families && stores[i].families[l] in stores[i].families;
    }
  }

  method CheckStore(stores: seq<StoreType>, i: nat, ghost machines: seq<Machine<Object>>,
                    ghost befores: seq<Snapshot<Object>>)
    returns (total: int, limit: int, cards: map<string, int>, limits: map<string, int>, cut: seq<string>,
        violations: seq<Violation>)
    requires i < |stores| && |machines| == |befores| == |stores| && Independent(stores)
               && Stage(stores, machines, befores, i)
    modifies Trackers(stores), Families(stores)
    ensures Stage(stores, machines, befores, i + 1)
    ensures var st := befores[i].tracker;
            && total == StoreCount(st) && limit == st.limits.store && cards == FamilyCounts(st)
                && limits == st.limits.family
            && multiset(cut) == multiset(st.cut) && multiset(violations) == Violations(st)
  {
    hide Step, StoreCount, FamilyCounts, Violations, Checks;
    Pending(stores[i], machines[i], befores[i]);
    total, limit, cards, limits, cut, violations := ReadAndCheck(stores[i]);
    JustChecked(stores[i], machines[i], befores[i]);
    forall j | 0 <= j < |stores| && j != i ensures Checks(stores[j], machines[j], befores[j], j < i + 1) {
      Unrelated(stores, i, j);
      assert old(Checks(stores[j], machines[j], befores[j], j < i));
    }
  }

  /** Sums the stores' figures as they stand, then checks every store. */
  method AggregateStoreCardinality(stores: seq<StoreType>, ghost machines: seq<Machine<Object>>,
                                   ghost befores: seq<Snapshot<Object>>)
    returns (agg: Aggregation)
    requires |machines| == |befores| == |stores| && Independent(stores) && Stage(stores, machines, befores, 0)
    modifies Trackers(stores), Families(stores)
    ensures Stage(stores, machines, befores, |stores|)
    ensures Reports(Identifiers(stores), States(befores), agg)
  {
    hide Reports, Stage, StoreCount, FamilyCounts, Violations, Merged, Raised, Wrap64;
    ghost var ids, sts := Identifiers(stores), States(befores);
    agg := Aggregation(0, map[], map[], map[], map[], [], []);
    NothingReported();
    assert ids[..0] == [] && sts[..0] == [];
    for i := 0 to |stores|
      invariant Stage(stores, machines, befores, i) && Reports(ids[..i], sts[..i], agg)
    {
      var storeID := stores[i].Identifier();
      var storeTotal, storeLimit, cards, limits, cut, violations := CheckStore(stores, i, machines, befores);
      var perFamily := AddInto(agg.perFamily, cards);
      var perFamilyLimit := RaiseTo(agg.perFamilyLimit, limits);
      OneMoreStore(ids[..i], sts[..i], agg, storeID, sts[i], perFamily, perFamilyLimit, cut, violations);
      assert ids[..i + 1] == ids[..i] + [storeID] && sts[..i + 1] == sts[..i] + [sts[i]];
      agg := Aggregation(
        Wrap64(agg.totalCardinality + storeTotal), agg.perStore[storeID := storeTotal],
            agg.perStoreLimit[storeID := storeLimit],
        perFamily, perFamilyLimit, agg.cutoffFamilies + cut, agg.violations + violations);
    }
    assert ids[..|stores|] == ids && sts[..|stores|] == sts;
  }

  ghost function States(befores: seq<Snapshot<Object>>): (sts: seq<State>)
    ensures |sts| == |befores|
  {
    seq(|befores|, i requires 0 <= i < |befores| => befores[i].tracker)
  }

  // ---- the verdict ------------------------------------------------------------------------------

  method HasThresholdExceeded(violations: seq<Violation>) returns (exceeded: bool)
    ensures exceeded == AnyOf(violations, Cutoff)
  {
    for i := 0 to |violations|
      invariant !AnyOf(violations[..i], Cutoff)
    {
      AnyMore(violations, i);
      if violations[i].severity == Cutoff {
        return true;
      }
    }
    assert violations[..|violations|] == violations;
    exceeded := false;
  }

  /** Some limit is exceeded: a family's, a store's, the monitor's or the global one. */
  ghost predicate SomethingExceeded(sts: seq<State>, g: Global, uid: Uid) {
    || (exists i :: 0 <= i < |sts| && StoreBreached(sts[i]))
    || ResourceExceeded(g, uid, 0) || GlobalExceeded(g)
  }

  ghost predicate StoreBreached(st: State) {
    StoreExceeded(st) || exists f :: f in st.known && FamilyExceeded(st, f)
  }

  ghost predicate Cuts(violations: multiset<Violation>) {
    exists v :: v in violations && v.severity == Cutoff
  }

  lemma CutsAny(violations: seq<Violation>)
    ensures Cuts(multiset(violations)) <==> AnyOf(violations, Cutoff)
  {
    if AnyOf(violations, Cutoff) {
      var i :| 0 <= i < |violations| && violations[i].severity == Cutoff;
      assert violations[i] in multiset(violations);
    }
    if v :| v in multiset(violations) && v.severity == Cutoff {
      assert v in violations;
    }
  }

  lemma VerdictCuts(level: Level, name: string, count: int, limit: int, warn: real)
    requires 0 < limit
    ensures AnyOf(Verdict(level, name, count, limit, warn), Cutoff) <==> Judge(count, limit, warn) == Cutoff
  {
    hide Judge;
    if Judge(count, limit, warn) == Cutoff {
      assert Verdict(level, name, count, limit, warn)[0].severity == Cutoff;
    }
  }

  lemma FamiliesCut(st: State)
    ensures (exists v :: v in FamilyViolations(st, st.known) && v.severity == Cutoff)
       <==> exists f :: f in st.known && FamilyExceeded(st, f)
  {
    hide Judge, Tracker.FamilyCount;
    if f :| f in st.known && FamilyExceeded(st, f) {
      var v := FamilyVerdict(st, f)[0];
      assert v in FamilyVerdict(st, f) && v in FamilyViolations(st, st.known) && v.severity == Cutoff;
    }
    if v :| v in FamilyViolations(st, st.known) && v.severity == Cutoff {
      var f :| f in st.known && v in FamilyVerdict(st, f);
      assert FamilyExceeded(st, f);
    }
  }

  lemma StoreCuts(st: State)
    ensures Cuts(Violations(st)) <==> StoreBreached(st)
  {
    hide Judge, StoreCount, FamilyViolations, FamilyExceeded, Verdict;
    FamiliesCut(st);
    CutsAny(StoreViolations(st));
    if st.limits.store > 0 {
      VerdictCuts(StoreLevel, "store", StoreCount(st), st.limits.store, st.limits.warn);
    }
    var families := multiset(FamilyViolations(st, st.known));
    if v :| v in FamilyViolations(st, st.known) && v.severity == Cutoff { assert v in families; }
  }

  lemma {:induction false} AllCuts(sts: seq<State>)
    ensures Cuts(AllViolations(sts)) <==> exists i :: 0 <= i < |sts| && StoreBreached(sts[i])
  {
    hide StoreBreached, Violations;
    if sts != [] {
      var n := |sts| - 1;
      AllCuts(sts[..n]);
      StoreCuts(sts[n]);
      assert sts == sts[..n] + [sts[n]];
      assert Cuts(AllViolations(sts)) <==> Cuts(AllViolations(sts[..n])) || Cuts(Violations(sts[n]));
    }
  }

  lemma GlobalCuts(g: Global, uid: Uid)
    ensures AnyOf(GlobalViolations(g, uid, 0), Cutoff) <==> ResourceExceeded(g, uid, 0) || GlobalExceeded(g)
  {
    hide Judge, GlobalTotal, Verdict;
    var t := g.thresholds;
    if Effective(g, 0) > 0 {
      VerdictCuts(ResourceLevel, "resource", Latest(g, uid), Effective(g, 0), t.warn);
    }
    if t.global > 0 {
      VerdictCuts(GlobalLevel, "global", GlobalTotal(g), t.global, t.warn);
    }
    var first := if Effective(g, 0) > 0 then Verdict(ResourceLevel, "resource", Latest(g, uid), Effective(g, 0),
        t.warn) else [];
    var second := if t.global > 0 then Verdict(GlobalLevel, "global", GlobalTotal(g), t.global, t.warn) else [];
    AnyAppend(first, second, Cutoff);
  }

  lemma AnyAppend(a: seq<Violation>, b: seq<Violation>, s: Severity)
    ensures AnyOf(a + b, s) <==> AnyOf(a, s) || AnyOf(b, s)
  {
    if i :| 0 <= i < |a| && a[i].severity == s { assert (a + b)[i].severity == s; }
    if i :| 0 <= i < |b| && b[i].severity == s { assert (a + b)[|a| + i].severity == s; }
  }

  /** The violations of a round contain a cutoff exactly when a limit is exceeded. */
  lemma RoundCuts(sts: seq<State>, g: Global, uid: Uid, violations: seq<Violation>)
    requires multiset(violations) == AllViolations(sts)
    ensures AnyOf(violations + GlobalViolations(g, uid, 0), Cutoff) <==> SomethingExceeded(sts, g, uid)
  {
    hide StoreBreached, AnyOf, GlobalViolations, Cuts, ResourceExceeded, GlobalExceeded;
    AllCuts(sts);
    CutsAny(violations);
    GlobalCuts(g, uid);
    AnyAppend(violations, GlobalViolations(g, uid, 0), Cutoff);
  }

  // ---- the controller ----------------------------------------------------------------------------

  /** The API server's copy of a monitor's status. */
  class Monitor {
    var stored: Stored

    constructor ()
      ensures stored == Stored([], None)
    {
      stored := Stored([], None);
    }
  }

  class Controller {
    const globalCardinalityManager: GlobalCardinalityManager
    var stores: map<Uid, seq<StoreType>>

    constructor (manager: GlobalCardinalityManager)
      ensures globalCardinalityManager == manager && stores == map[]
    {
      globalCardinalityManager, stores := manager, map[];
    }

    /** Get, modify, update; each call to the API server may fail. */
    method EmitSuccess(monitor: Monitor, status: ConditionStatus, getFails: bool, updateFails: bool, generation: int,
                       now: int)
      returns (failed: bool)
      modifies monitor
      ensures failed == (getFails || updateFails)
      ensures Written(old(monitor.stored), if failed then Lost else Write.Success(status), monitor.stored)
    {
      if getFails {
        return true;
      }
      var resource := new ResourceMetricsMonitorStatus(monitor.stored.conditions, monitor.stored.cardinality);
      resource.Set(Processed, status, "", generation, now);
      if updateFails {
        return true;
      }
      monitor.stored := Stored(resource.conditions, resource.cardinality);
      failed := false;
    }

    method EmitFailure(monitor: Monitor, getFails: bool, updateFails: bool, generation: int, now: int)
      modifies monitor
      ensures Written(old(monitor.stored), if getFails || updateFails then Lost else Write.Failure, monitor.stored)
    {
      if getFails {
        return;
      }
      var resource := new ResourceMetricsMonitorStatus(monitor.stored.conditions, monitor.stored.cardinality);
      resource.Set(Failed, True, "", generation, now);
      if updateFails {
        return;
      }
      monitor.stored := Stored(resource.conditions, resource.cardinality);
    }

    method PersistCardinalityStatus(monitor: Monitor, agg: Aggregation, getFails: bool, updateFails: bool,
                                    generation: int, now: int)
      returns (failed: bool)
      modifies monitor
      ensures failed == (getFails || updateFails)
      ensures Written(old(monitor.stored), if failed then Lost else Cardinality(agg.violations, Figures(agg, now)),
                monitor.stored)
    {
      hide CardinalitySet, AnyOf;
      if getFails {
        return true;
      }
      var resource := new ResourceMetricsMonitorStatus(monitor.stored.conditions, monitor.stored.cardinality);
      var exceeded := HasThresholdExceeded(agg.violations);
      resource.cardinality := Some(CardinalityStatus(
        agg.totalCardinality, agg.perStore, agg.perFamily, exceeded, agg.cutoffFamilies, now));
      resource.SetCardinalityConditions(agg.violations, generation, now);
      if updateFails {
        return true;
      }
      monitor.stored := Stored(resource.conditions, resource.cardinality);
      failed := false;
    }

    /** One round for one monitor. A monitor without stores is left alone. */
    method UpdateCardinalityStatus(uid: Uid, monitor: Monitor, getFails: bool, updateFails: bool, generation: int,
                                   now: int,
                                   ghost machines: seq<Machine<Object>>, ghost befores: seq<Snapshot<Object>>)
      returns (failed: bool, ghost agg: Aggregation)
      requires globalCardinalityManager.Valid()
      requires Ready(Loaded(uid), machines, befores)
      modifies monitor, globalCardinalityManager, Trackers(Loaded(uid)), Families(Loaded(uid))
      ensures globalCardinalityManager.Valid()
      ensures uid !in stores ==>
                !failed && monitor.stored == old(monitor.stored)
                    && globalCardinalityManager.Abs() == old(globalCardinalityManager.Abs())
      ensures uid in stores ==>
                && failed == (getFails || updateFails)
                && AfterRound(stores[uid], machines, befores, old(globalCardinalityManager.Abs()), old(monitor.stored),
                    uid, agg,
                              failed, now, globalCardinalityManager.Abs(), monitor.stored)
    {
      hide AfterRound, Ready;
      if uid !in stores {
        return false, Aggregation(0, map[], map[], map[], map[], [], []);
      }
      failed, agg := UpdateLoaded(stores[uid], uid, monitor, getFails, updateFails, generation, now, machines, befores);
    }

    /** The stores of the monitor, if it has any. */
    function Loaded(uid: Uid): seq<StoreType>
      reads this
    {
      if uid in stores then stores[uid] else []
    }

    method UpdateLoaded(loaded: seq<StoreType>, uid: Uid, monitor: Monitor, getFails: bool, updateFails: bool,
                        generation: int, now: int,
                        ghost machines: seq<Machine<Object>>, ghost befores: seq<Snapshot<Object>>)
      returns (failed: bool, ghost agg: Aggregation)
      requires globalCardinalityManager.Valid() && Ready(loaded, machines, befores)
      modifies monitor, globalCardinalityManager, Trackers(loaded), Families(loaded)
      ensures globalCardinalityManager.Valid() && failed == (getFails || updateFails)
      ensures AfterRound(loaded, machines, befores, old(globalCardinalityManager.Abs()), old(monitor.stored), uid, agg,
                         failed, now, globalCardinalityManager.Abs(), monitor.stored)
    {
      hide Reports, Stage, CardinalityRound, Independent;
      var a := AggregateStoreCardinality(loaded, machines, befores);
      agg := a;
      ReportsTotals(Identifiers(loaded), States(befores), a);
      failed := FinishRound(uid, monitor, a, getFails, updateFails, generation, now, States(befores));
    }

    /** The comparison with the monitor's and the global limit, and the status. */
    method FinishRound(uid: Uid, monitor: Monitor, agg: Aggregation, getFails: bool, updateFails: bool,
                       generation: int, now: int,
                       ghost sts: seq<State>)
      returns (failed: bool)
      requires globalCardinalityManager.Valid() && multiset(agg.violations) == AllViolations(sts)
      modifies monitor, globalCardinalityManager
      ensures globalCardinalityManager.Valid()
      ensures failed == (getFails || updateFails)
      ensures CardinalityRound(old(globalCardinalityManager.Abs()), old(monitor.stored), uid, sts, agg, failed, now,
                    globalCardinalityManager.Abs(), monitor.stored)
    {
      hide Written, CheckedGlobal, GlobalViolations, SomethingExceeded, AnyOf;
      globalCardinalityManager.UpdateResource(uid, agg.totalCardinality);
      ghost var g := globalCardinalityManager.Abs();
      var resourceViolations := globalCardinalityManager.CheckThresholds(uid, 0);
      RoundCuts(sts, g, uid, agg.violations);
      failed := PersistCardinalityStatus(monitor, agg.(violations := agg.violations + resourceViolations),
                                         getFails, updateFails, generation, now);
    }
  }

  lemma ReportsTotals(ids: seq<string>, sts: seq<State>, agg: Aggregation)
    requires |ids| == |sts| && Reports(ids, sts, agg)
    ensures multiset(agg.violations) == AllViolations(sts) && agg.totalCardinality == Total(sts)
  {
  }

  /** befores are the stores' states before the round. */
  ghost predicate Ready(stores: seq<StoreType>, machines: seq<Machine<Object>>, befores: seq<Snapshot<Object>>)
    reads stores, Trackers(stores), Families(stores)
  {
    |machines| == |befores| == |stores| && Independent(stores) && Stage(stores, machines, befores, 0)
  }

  /** Every store was checked, the figures are those from before, and manager and
      status follow from them. */
  ghost predicate AfterRound(stores: seq<StoreType>, machines: seq<Machine<Object>>, befores: seq<Snapshot<Object>>,
                             g: Global, stored: Stored, uid: Uid, agg: Aggregation, failed: bool, now: int, g': Global,
                                 stored': Stored)
    reads stores, Trackers(stores), Families(stores)
  {
    && |machines| == |befores| == |stores| && Stage(stores, machines, befores, |stores|)
    && Reports(Identifiers(stores), States(befores), agg)
    && CardinalityRound(g, stored, uid, States(befores), agg, failed, now, g', stored')
  }

  /** What one round does to the manager and to the stored status. */
  ghost predicate CardinalityRound(g: Global, stored: Stored, uid: Uid, sts: seq<State>, agg: Aggregation,
                                   failed: bool, now: int,
                        g': Global, stored': Stored) {
    var updated := g.(perResource := g.perResource[uid := agg.totalCardinality]);
    var all := agg.violations + GlobalViolations(updated, uid, 0);
    && g' == CheckedGlobal(updated, uid, 0)
    && (AnyOf(all, Cutoff) <==> SomethingExceeded(sts, updated, uid))
    && Written(stored, if failed then Lost else Cardinality(all, Figures(agg.(violations := all), now)), stored')
  }

  function Figures(agg: Aggregation, now: int): CardinalityStatus {
    CardinalityStatus(agg.totalCardinality, agg.perStore, agg.perFamily, AnyOf(agg.violations, Cutoff),
        agg.cutoffFamilies, now)
  }

  // ---- what a round guarantees ----------------------------------------------------------------------

  /** After a round the monitor's total, in the manager and in the status, is the
      sum of its per-store figures and of its per-family figures; the status says
      "exceeded" exactly when some limit is, in the figures and in the conditions. */
  lemma RoundConserves(g: Global, stored: Stored, uid: Uid, ids: seq<string>, sts: seq<State>, agg: Aggregation,
                       now: int,
                       g': Global, stored': Stored)
    requires |ids| == |sts| && Distinct(ids) && Reports(ids, sts, agg)
    requires forall i | 0 <= i < |sts| :: Closed(sts[i].objects, sts[i].known)
    requires Coherent(stored) && CardinalityRound(g, stored, uid, sts, agg, false, now, g', stored')
    ensures agg.totalCardinality == Wrap64(Sum(agg.perStore)) == Wrap64(Sum(agg.perFamily))
    ensures uid in g'.perResource && g'.perResource[uid] == agg.totalCardinality
    ensures g'.perResource == g.perResource[uid := agg.totalCardinality]
    ensures stored'.cardinality.Some? && stored'.cardinality.value.total == agg.totalCardinality
    ensures var exceeded := SomethingExceeded(sts, g.(perResource := g'.perResource), uid);
            && (stored'.cardinality.value.thresholdsExceeded <==> exceeded)
            && (Says(stored'.conditions, CardinalityCutoff, True) <==> exceeded)
            && (exceeded ==> Says(stored'.conditions, CardinalityWarning, True))
  {
    hide Sum, Wrap64, SomethingExceeded, Coherent, Says, AnyOf, CardinalitySet, Closed;
    TotalIsPerStore(ids, sts);
    TotalIsPerFamily(sts);
    var all := agg.violations + GlobalViolations(g.(perResource := g'.perResource), uid, 0);
    WriteKeepsCoherent(stored, Cardinality(all, Figures(agg.(violations := all), now)), stored');
    CoherentSays(stored');
  }

  lemma CoherentSays(s: Stored)
    requires Coherent(s) && s.cardinality.Some?
    ensures Says(s.conditions, CardinalityCutoff, True) <==> s.cardinality.value.thresholdsExceeded
    ensures s.cardinality.value.thresholdsExceeded ==> Says(s.conditions, CardinalityWarning, True)
  {
    hide TypeName;
  }

  /** A round does not disturb a store between operations: its check finds what the
      last one found, so the families listed as cut off are still the right ones. */
  lemma RoundLeavesQuiescent<O>(m: Machine<O>, before: Snapshot<O>, after: Snapshot<O>)
    requires Inv(m, before) && Step(m, before, Op.Check, after)
    ensures after == before
  {
    hide AllRecorded;
  }
}
