/** Runs that show the results about stores cannot be improved: the soft-cutoff
    bounds are attained, and a cutoff by the store can stay for good. */
module Tightness {
  import opened Basics
  import opened Float
  import opened FloatReach
  import opened Tracker
  import opened StoreMachine
  import opened SoftCutoff
  import Reprocess

  // ---- a store with one family and an object of every size ---------------------------

  /** A machine with objects it renders as texts of any number of lines. */
  datatype Sized<!O> = Sized(machine: Machine<O>, obj: (Uid, nat) -> O, text: (Uid, nat) -> string)

  /** At every generation the object of size n is rendered as n lines. */
  ghost predicate Renders<O>(w: Sized<O>) {
    && w.machine.names == ["f"]
    && (forall g: nat, u: Uid, n: nat | 0 < g && n < TWO_63 :: w.machine.outcome(g, 0, w.obj(u, n), w.text(u, n), n))
    && (forall u: Uid, n: nat | n < TWO_63 :: Lines(w.text(u, n)) == n)
  }

  predicate Small(live: map<Uid, nat>) {
    forall u | u in live :: live[u] < TWO_63
  }

  /** The rows and objects of a store that holds objects of these sizes. */
  function Rows<O>(w: Sized<O>, live: map<Uid, nat>): map<Uid, seq<string>> {
    map u | u in live :: [w.text(u, live[u])]
  }

  function Objects<O>(w: Sized<O>, live: map<Uid, nat>): map<Uid, O> {
    map u | u in live :: w.obj(u, live[u])
  }

  function CountsOf(live: map<Uid, nat>): map<Uid, Counts> {
    map u | u in live :: map["f" := live[u] as int]
  }

  /** The state with these objects rendered in full and nothing cut off. */
  ghost function Plain<O>(w: Sized<O>, live: map<Uid, nat>, g: nat): Snapshot<O> {
    Snapshot(Rows(w, live), Objects(w, live),
             State(CountsOf(live), if g == 0 then {} else {"f"}, {}, w.machine.limits), [false], g)
  }

  ghost function AfterAdd<O>(w: Sized<O>, live: map<Uid, nat>, g: nat, u: Uid, n: nat): Snapshot<O> {
    var all := live[u := n];
    var checked := Checked(State(CountsOf(all), {"f"}, {}, w.machine.limits));
    Snapshot(Rows(w, all), Objects(w, all), checked, Flags(["f"], checked), g + 1)
  }

  lemma SingleCount(o: nat)
    ensures CountMap(["f"], [o]) == map["f" := o as int] && CountMap(["f"], [o]).Keys == {"f"}
  {
    assert ["f"][..0] == [] && [o][..0] == [];
    var none: Counts := map[];
    assert CountMap([], []) == none;
    assert CountMap(["f"], [o]) == none["f" := o as int];
    assert CountMap(["f"], [o]).Keys == {"f"};
  }

  lemma AddStep<O>(w: Sized<O>, live: map<Uid, nat>, g: nat, u: Uid, n: nat)
    requires Renders(w) && n < TWO_63
    ensures Step(w.machine, Plain(w, live, g), Add(u, w.obj(u, n)), AfterAdd(w, live, g, u, n))
  {
    var m, s, o, text := w.machine, Plain(w, live, g), w.obj(u, n), w.text(u, n);
    SingleCount(n);
    hide Checked, Lines, CountMap;
    assert Outcomes(m, g + 1, o, [text], [n]);
    hide Renders;
    assert Row(s.flags, [text]) == [text];
    Updated(w, live, u, n);
    var before := s.tracker.(objects := s.tracker.objects[u := map["f" := n as int]], known := s.tracker.known + {"f"});
    assert before == State(CountsOf(live[u := n]), {"f"}, {}, m.limits);
    assert AddWith(m, s, u, o, [text], [n]) == AfterAdd(w, live, g, u, n);
  }

  lemma Updated<O>(w: Sized<O>, live: map<Uid, nat>, u: Uid, n: nat)
    ensures Rows(w, live)[u := [w.text(u, n)]] == Rows(w, live[u := n])
    ensures Objects(w, live)[u := w.obj(u, n)] == Objects(w, live[u := n])
    ensures CountsOf(live)[u := map["f" := n as int]] == CountsOf(live[u := n])
  {
    UpdatedCounts(live, u, n);
    hide CountsOf;
    assert Rows(w, live)[u := [w.text(u, n)]].Keys == Rows(w, live[u := n]).Keys;
    assert Objects(w, live)[u := w.obj(u, n)].Keys == Objects(w, live[u := n]).Keys;
  }

  lemma UpdatedCounts(live: map<Uid, nat>, u: Uid, o: nat)
    ensures CountsOf(live)[u := map["f" := o as int]] == CountsOf(live[u := o])
  {
    var c: Counts := map["f" := o as int];
    var counts := CountsOf(live)[u := c];
    assert counts.Keys == CountsOf(live[u := o]).Keys;
    forall v | v in counts ensures counts[v] == CountsOf(live[u := o])[v] {}
  }

  // ---- its totals ----------------------------------------------------------------------

  /** The objects' sizes add up to n. */
  ghost predicate Amount(live: map<Uid, nat>, n: nat) {
    TotalSum(CountsOf(live)) == n && forall f :: FamilySum(CountsOf(live), f) == if f == "f" then n else 0
  }

  lemma NoAmount()
    ensures Amount(map[], 0)
  {
    hide Sum;
    EmptySum();
    assert CountsOf(map[]) == map[];
    forall f ensures FamilySum(map[], f) == 0 { assert FamilyColumn(map[], f) == map[]; }
    assert TotalColumn(map[]) == map[];
  }

  lemma OneMoreObject(live: map<Uid, nat>, a: nat, u: Uid, n: nat)
    requires u !in live && Amount(live, a)
    ensures Amount(live[u := n], a + n)
  {
    hide Sum, FamilySum, TotalSum;
    var c: Counts := map["f" := n as int];
    var before, after := CountsOf(live), CountsOf(live[u := n]);
    assert after == before[u := c] && before - {u} == before;
    SumOne(n);
    TotalSumInsert(before, u, c);
    forall f ensures FamilySum(after, f) == if f == "f" then a + n else 0 {
      FamilySumInsert(before, u, c, f);
    }
  }

  lemma SumOne(n: nat)
    ensures Sum(map["f" := n as int]) == n
  {
    EmptySum();
    var none: Counts := map[];
    SumInsert(none, "f", n);
    assert map["f" := n as int] == none["f" := n as int] && none - {"f"} == none;
  }

  lemma SingleRow(text: string)
    ensures LinesAt([text], 0) == Lines(text) == RowLines([text])
  {
    hide Lines;
    assert [text][..0] == [];
    assert RowLines([]) == 0;
  }

  /** What is cached is what is counted. */
  lemma AllVisible<O>(w: Sized<O>, live: map<Uid, nat>, n: nat)
    requires Renders(w) && Small(live) && Amount(live, n)
    ensures Visible(Rows(w, live), 0) == n && VisibleTotal(Rows(w, live)) == n
  {
    hide Sum, Lines, RowLines, LinesAt;
    forall u | u in live ensures LinesAt(Rows(w, live)[u], 0) == live[u] == RowLines(Rows(w, live)[u]) {
      SingleRow(w.text(u, live[u]));
    }
    assert FamilyLines(Rows(w, live), 0) == FamilyColumn(CountsOf(live), "f");
    forall u | u in live ensures Sum(CountsOf(live)[u]) == live[u] { SumOne(live[u]); }
    assert ObjectLines(Rows(w, live)) == TotalColumn(CountsOf(live));
    assert FamilySum(CountsOf(live), "f") == n;
  }

  lemma AmountFits(live: map<Uid, nat>, n: nat, st: State)
    requires Amount(live, n) && n < TWO_63 && st.objects == CountsOf(live)
    ensures Fits(st)
  {
  }

  /** A total within the reach of the limits. */
  ghost predicate Within(limits: Limits, n: nat) {
    && (limits.store > 0 ==> n <= Reach(limits.store))
    && (HasOwnLimit(limits, "f") ==> n <= Reach(limits.family["f"]))
  }

  lemma WithinNotCut(limits: Limits, live: map<Uid, nat>, n: nat)
    requires Amount(live, n) && n < TWO_63 && Within(limits, n)
    ensures var st := State(CountsOf(live), {"f"}, {}, limits); Checked(st) == st
  {
    hide Judge, Reach, TotalSum, FamilySum;
    var st := State(CountsOf(live), {"f"}, {}, limits);
    if limits.store > 0 {
      CutoffBeyondReach(n, limits.store, limits.warn);
    }
    if HasOwnLimit(limits, "f") {
      CutoffBeyondReach(n, limits.family["f"], limits.warn);
    }
    assert FamilyCount(st, "f") == n && StoreCount(st) == n;
    assert Checked(st).cut == {};
  }

  // ---- filling the store up to its limit -------------------------------------------------

  function Unary(n: nat): Uid {
    seq(n, i => 'x')
  }

  function Ones(n: nat): map<Uid, nat> {
    if n == 0 then map[] else Ones(n - 1)[Unary(n - 1) := 1]
  }

  lemma {:induction false} OnesAmount(n: nat)
    ensures Amount(Ones(n), n) && Small(Ones(n)) && forall u | u in Ones(n) :: |u| < n
  {
    hide Amount;
    if n == 0 {
      NoAmount();
    } else {
      OnesAmount(n - 1);
      OneMoreObject(Ones(n - 1), n - 1, Unary(n - 1), 1);
    }
  }

  lemma FillStep<O>(w: Sized<O>, n: nat)
    requires Renders(w) && Within(w.machine.limits, n + 1) && n + 1 < TWO_63
    ensures Step(w.machine, Plain(w, Ones(n), n), Add(Unary(n), w.obj(Unary(n), 1)), Plain(w, Ones(n + 1), n + 1))
  {
    hide Amount, Step, Checked, Within, Renders, Rows, Objects;
    AddStep(w, Ones(n), n, Unary(n), 1);
    OnesAmount(n + 1);
    WithinNotCut(w.machine.limits, Ones(n + 1), n + 1);
    assert Flags(["f"], State(CountsOf(Ones(n + 1)), {"f"}, {}, w.machine.limits)) == [false];
  }

  /** n objects of one line each, then one of most lines. */
  ghost function FillOps<O>(w: Sized<O>, n: nat, most: nat): seq<Op<O>> {
    seq(n, (k: nat) => Op.Add(Unary(k), w.obj(Unary(k), 1))) + [Add(Unary(n), w.obj(Unary(n), most))]
  }

  ghost function FillStates<O>(w: Sized<O>, n: nat, most: nat): seq<Snapshot<O>> {
    seq(n + 1, (k: nat) => Plain(w, Ones(k), k)) + [AfterAdd(w, Ones(n), n, Unary(n), most)]
  }

  lemma InitIsPlain<O>(w: Sized<O>)
    requires Renders(w)
    ensures Plain(w, map[], 0) == Init(w.machine)
  {
  }

  lemma FillRun<O>(w: Sized<O>, n: nat, most: nat)
    requires Renders(w) && Within(w.machine.limits, n) && n + most < TWO_63
    ensures IsRun(w.machine, FillOps(w, n, most), FillStates(w, n, most))
  {
    hide Step, Plain, AfterAdd, Reach, Renders;
    var ops, states := FillOps(w, n, most), FillStates(w, n, most);
    InitIsPlain(w);
    forall k: nat | k < n ensures Step(w.machine, states[k], ops[k], states[k + 1]) { FillStep(w, k); }
    AddStep(w, Ones(n), n, Unary(n), most);
  }

  lemma FillFits<O>(w: Sized<O>, n: nat, most: nat)
    requires Renders(w) && n + most < TWO_63
    ensures forall j | 0 <= j < n + 2 :: Fits(FillStates(w, n, most)[j].tracker)
    ensures var last := FillStates(w, n, most)[n + 1].cache; Visible(last, 0) == VisibleTotal(last) == n + most
  {
    hide Visible, VisibleTotal, Fits, Amount, Checked, Rows, Objects, CountsOf, Ones, Renders;
    var states, all := FillStates(w, n, most), Ones(n)[Unary(n) := most];
    forall k: nat | k <= n ensures Fits(states[k].tracker) {
      OnesAmount(k);
      AmountFits(Ones(k), k, states[k].tracker);
    }
    OnesAmount(n);
    OneMoreObject(Ones(n), n, Unary(n), most);
    CheckedObjects(State(CountsOf(all), {"f"}, {}, w.machine.limits));
    AmountFits(all, n + most, states[n + 1].tracker);
    AllVisible(w, all, n + most);
  }

  lemma FillAdds<O>(w: Sized<O>, n: nat, most: nat)
    requires most > 0
    ensures FamilyAddsAtMost(FillOps(w, n, most), FillStates(w, n, most), "f", most)
    ensures AddsAtMost(FillOps(w, n, most), FillStates(w, n, most), most)
  {
    hide CutAfterCheck, Sum;
    var ops, states := FillOps(w, n, most), FillStates(w, n, most);
    SumOne(1);
    SumOne(most);
    forall j | 0 <= j < |ops|
      ensures ops[j].uid in states[j + 1].tracker.objects
      ensures states[j + 1].tracker.objects[ops[j].uid] == map["f" := if j < n then 1 else most as int]
    {
    }
  }

  /** The bounds cannot be improved: for every limit T, on a family or on the store,
      and every largest count most > 0 some run shows the reach of T plus most. */
  lemma BoundsAttained<O>(w: Sized<O>, most: nat) returns (ops: seq<Op<O>>, states: seq<Snapshot<O>>)
    requires Renders(w) && most > 0 && OneLimit(w.machine.limits)
    requires Reach(TheLimit(w.machine.limits)) + most < TWO_63
    ensures IsRun(w.machine, ops, states) && Attained(w.machine.limits, ops, states, most)
  {
    hide Step, Visible, VisibleTotal, Fits, Faithful, FamilyAddsAtMost, AddsAtMost, Reach, Renders;
    var n := Reach(TheLimit(w.machine.limits));
    ops, states := FillOps(w, n, most), FillStates(w, n, most);
    FillRun(w, n, most);
    FillFits(w, n, most);
    FillAdds(w, n, most);
  }

  /** Either the store has a limit or family f has one of its own. */
  predicate OneLimit(limits: Limits) {
    0 < limits.store <==> !HasOwnLimit(limits, "f")
  }

  function TheLimit(limits: Limits): int
    requires OneLimit(limits)
  {
    if limits.store > 0 then limits.store else limits.family["f"]
  }

  /** No Add produced more than most, no total overflowed, and in the end exactly
      the reach of the limit plus most is visible. */
  ghost predicate Attained<O>(limits: Limits, ops: seq<Op<O>>, states: seq<Snapshot<O>>, most: nat)
    requires OneLimit(limits)
  {
    && |states| == |ops| + 1 && FamilyAddsAtMost(ops, states, "f", most) && AddsAtMost(ops, states, most)
    && (forall j | 0 <= j < |states| :: Fits(states[j].tracker))
    && var last := states[|ops|].cache;
       if limits.store > 0 then VisibleTotal(last) == Reach(limits.store) + most
       else Visible(last, 0) == Reach(limits.family["f"]) + most
  }

  // ---- no recovery --------------------------------------------------------------------------

  /** A store with limit T and a family without one of its own: adding an object
      beyond the limit and deleting it again leaves the store empty and the family
      cut off, and so it is after any number of further checks. */
  lemma CutForGood<O>(w: Sized<O>, checks: nat) returns (ops: seq<Op<O>>, states: seq<Snapshot<O>>)
    requires Renders(w) && StoreLimitOnly(w.machine.limits)
    ensures IsRun(w.machine, ops, states) && |ops| == checks + 2 && CutAndEmpty(states[|ops|])
    decreases checks
  {
    hide Step, Reach, Renders, StoreLimitOnly, CutAndEmpty;
    if checks == 0 {
      ops, states := OverAndOut(w);
    } else {
      ops, states := CutForGood(w, checks - 1);
      var s := states[|ops|];
      RunKeepsInv(w.machine, ops, states, |ops|);
      CheckKeeps(w.machine, s);
      ops, states := ops + [Check], states + [s];
    }
  }

  ghost predicate StoreLimitOnly(limits: Limits) {
    0 < limits.store && limits.family == map[] && Reach(limits.store) + 1 < TWO_63
  }

  /** Nothing is left and the store is within its limit, but the family is cut off. */
  ghost predicate CutAndEmpty<O>(s: Snapshot<O>) {
    s.cache == map[] && !StoreExceeded(s.tracker) && s.flags == [true]
  }

  lemma CheckKeeps<O>(m: Machine<O>, s: Snapshot<O>)
    requires Inv(m, s)
    ensures Step(m, s, Check, s)
  {
    hide AllRecorded;
  }

  lemma OverAndOut<O>(w: Sized<O>) returns (ops: seq<Op<O>>, states: seq<Snapshot<O>>)
    requires Renders(w) && StoreLimitOnly(w.machine.limits)
    ensures IsRun(w.machine, ops, states) && |ops| == 2 && CutAndEmpty(states[2])
  {
    var m, n := w.machine, Reach(w.machine.limits.store) + 1;
    var s1 := AfterAdd(w, map[], 0, "a", n);
    hide Step, StoreExceeded, AfterDelete, AfterAdd, Reach, Plain, Init, IsRun, CutAndEmpty;
    InitIsPlain(w);
    AddStep(w, map[], 0, "a", n);
    OverLimit(w);
    AddedKnown(w, n);
    var s2 := AfterDelete(m, s1, "a");
    ops, states := [Add("a", w.obj("a", n)), Delete("a")], [Init(m), s1, s2];
    TwoSteps(m, ops[0], s1, ops[1], s2);
    NothingLeft(w, n);
    StaysCut(m, ops, states);
  }

  lemma TwoSteps<O>(m: Machine<O>, op1: Op<O>, s1: Snapshot<O>, op2: Op<O>, s2: Snapshot<O>)
    requires Step(m, Init(m), op1, s1) && Step(m, s1, op2, s2)
    ensures IsRun(m, [op1, op2], [Init(m), s1, s2])
  {
    hide Step, Init;
  }

  lemma StaysCut<O>(m: Machine<O>, ops: seq<Op<O>>, states: seq<Snapshot<O>>)
    requires m.names == ["f"] && StoreLimitOnly(m.limits) && IsRun(m, ops, states) && |ops| == 2
    requires StoreExceeded(states[1].tracker) && states[1].tracker.known == {"f"}
    requires states[2].cache == map[] && states[2].tracker.objects == map[]
    ensures CutAndEmpty(states[2])
  {
    hide Step, StoreExceeded, Reach;
    assert !HasOwnLimit(m.limits, "f");
    assert Reprocess.StoreCutIn(states, 1, "f");
    Reprocess.UnlimitedFamilyCutoff(m, ops, states, 2, 0);
    RunKeepsInv(m, ops, states, 2);
    EmptyStoreWithinLimit(states[2].tracker);
  }

  ghost function AfterDelete<O>(m: Machine<O>, s: Snapshot<O>, u: Uid): (s': Snapshot<O>)
    ensures Step(m, s, Delete(u), s')
  {
    hide Checked;
    Recheck(m, s.(cache := s.cache - {u}, live := s.live - {u}), s.tracker.(objects := s.tracker.objects - {u}))
  }

  lemma AddedKnown<O>(w: Sized<O>, n: nat)
    ensures AfterAdd(w, map[], 0, "a", n).tracker.known == {"f"}
  {
    hide CutAfterCheck;
  }

  lemma NothingLeft<O>(w: Sized<O>, n: nat)
    ensures var s := AfterDelete(w.machine, AfterAdd(w, map[], 0, "a", n), "a");
            s.cache == map[] && s.tracker.objects == map[]
  {
    hide CutAfterCheck;
  }

  lemma CheckedObjects(st: State)
    ensures Checked(st).objects == st.objects && Checked(st).known == st.known && Checked(st).limits == st.limits
  {
  }

  lemma OverLimit<O>(w: Sized<O>)
    requires StoreLimitOnly(w.machine.limits)
    ensures StoreExceeded(AfterAdd(w, map[], 0, "a", Reach(w.machine.limits.store) + 1).tracker)
  {
    var limit := w.machine.limits.store;
    var n, live := Reach(limit) + 1, map["a" := Reach(limit) + 1];
    var none: map<Uid, nat> := map[];
    hide Reach, Amount, CutAfterCheck, Rows, Objects;
    NoAmount();
    OneMoreObject(none, 0, "a", n);
    assert none["a" := n] == live;
    AmountIs(live, n);
    hide TotalSum, Judge;
    CutoffBeyondReach(n, limit, w.machine.limits.warn);
  }

  lemma AmountIs(live: map<Uid, nat>, n: nat)
    requires Amount(live, n)
    ensures TotalSum(CountsOf(live)) == n
  {
  }
}
