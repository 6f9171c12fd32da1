/** A store of the program's own kind on which its bounds are attained: one family
    with one metric, whose value is the list the object holds. */
module Witness {
  import opened Basics
  import opened Values
  import opened Flatten
  import opened Collect
  import Leaves
  import opened Resources
  import opened FloatReach
  import opened Tracker
  import opened StoreMachine
  import opened Labels
  import opened Expansion
  import opened Samples
  import opened Family
  import opened FamilyFacts
  import opened MetricValues
  import opened Store
  import opened Generations
  import opened Tightness

  // ---- an expression that gives the object's list ----------------------------------------

  /** The list of n ones. */
  function OnesList(n: nat): Value {
    List(seq(n, i => Scalar("1")))
  }

  function Held(content: Value): Value {
    if content.List? && content == OnesList(|content.items|) && |content.items| < TWO_63 then content else Opaque
  }

  function HoldEnv(): Env {
    Env((instant: int, query: string, content: Value) => Held(content),
        (query: string, content: Value) => None,
        (s: string) => if s == "1" then Some(Finite(1.0)) else None,
        (x: Number) => "1",
        (s: string) => if s == "" then "" else "n")
  }

  const METRIC: Metric := Metric([], "v", Cel)
  const FAMILY: Config := Config("f", [METRIC], [], Cel)

  /** The object u whose list has n entries. */
  function Sizable(u: Uid, n: nat): Object {
    Object(u, "group", "v1", "Kind", "namespace", u, OnesList(n))
  }

  // ---- what it resolves to -----------------------------------------------------------------

  function ItemNames(parent: string, n: nat): set<string> {
    set i: nat | i < n :: Indexed(parent, i)
  }

  lemma {:induction false} NamesCount(parent: string, n: nat)
    ensures |ItemNames(parent, n)| <= n
  {
    if n > 0 {
      NamesCount(parent, n - 1);
      assert ItemNames(parent, n) == ItemNames(parent, n - 1) + {Indexed(parent, n - 1)};
    } else {
      assert ItemNames(parent, n) == {};
    }
  }

  lemma {:induction false} OnesFinals(v: Value, n: nat, parent: string, k: string)
    requires v.List? && v == OnesList(|v.items|) && n <= |v.items|
    ensures ListFinals(v, n, parent, k) == if k in ItemNames(parent, n) then {"1"} else {}
  {
    if n > 0 {
      OnesFinals(v, n - 1, parent, k);
      assert v.items[n - 1] == Scalar("1");
    }
  }

  /** A list of n ones resolves to n entries that hold "1". */
  lemma OnesResolve(query: string, n: nat, r: Resolution)
    requires Resolves(query, OnesList(n), r)
    ensures r.Keys == ItemNames(FieldParent(query), n) && forall k | k in r :: r[k] == "1"
  {
    hide Resolves, FieldParent;
    var v := OnesList(n);
    forall k ensures k in r <==> k in ItemNames(FieldParent(query), n)
      ensures k in r ==> r[k] == "1"
    {
      ResolvesTexts(query, v, k);
      OnesFinals(v, n, FieldParent(query), k);
    }
  }

  lemma HoldValid()
    ensures HoldEnv().Valid()
  {
    hide Resolves;
    forall query, content, r | Resolves(query, Held(content), r) ensures |r| < TWO_63 {
      if Held(content) == Opaque {
        NothingResolved(query, r);
      } else {
        OnesResolve(query, |content.items|, r);
        NamesCount(FieldParent(query), |content.items|);
        assert |r| == |r.Keys|;
      }
    }
  }

  lemma NothingResolved(query: string, r: Resolution)
    requires Resolves(query, Opaque, r)
    ensures |r| == 0
  {
  }

  lemma OnesRun(n: nat, r: Resolution, run: seq<string>)
    requires Resolves("v", OnesList(n), r) && Collect.IsRun(r, run)
    ensures "v" !in r && run == seq(n, i => "1")
  {
    hide Resolves, IndexOf, FieldParent, Itoa;
    var parent := FieldParent("v");
    OnesResolve("v", n, r);
    forall i: nat ensures HasIndex(r, i) <==> i < n {
      Leaves.IndexedIndex(parent, i);
      assert i < n ==> Indexed(parent, i) in ItemNames(parent, n);
      if k :| k in r && IndexOf(k) == Some(i) {
        var j: nat :| j < n && k == Indexed(parent, j);
        Leaves.IndexedIndex(parent, j);
      }
    }
    forall i: nat | i < |run| ensures HasIndex(r, i) && run[i] == "1" { assert IsEntry(r, i, run[i]); }
    assert !HasIndex(r, n) && !HasIndex(r, |run|);
    ShortName(parent, n);
  }

  lemma ShortName(parent: string, n: nat)
    ensures "v" !in ItemNames(parent, n)
  {
    forall i: nat | i < n ensures Indexed(parent, i) != "v" { assert '#' in Indexed(parent, i) && '#' !in "v"; }
  }

  // ---- what it renders as --------------------------------------------------------------------

  /** An object with n ones is rendered as n samples. */
  lemma RendersOnes(u: Uid, n: nat) returns (t: string)
    requires n < TWO_63
    ensures Outcome(HoldEnv(), FAMILY, Sizable(u, n), t, n)
  {
    var env, o := HoldEnv(), Sizable(u, n);
    var d := SomeDraw(env, Cel, FAMILY, METRIC, o);
    CountsOnes(o, n, d);
    hide Legal, MetricCount, MetricText, HoldEnv;
    t := MetricText(env, FAMILY, METRIC, o, d);
    OneMetric(env, FAMILY, o, d);
    assert LegalDraws(env, FAMILY, o, [d], |FAMILY.metrics|) && IsOutcome(env, FAMILY, o, [d], t, n);
  }

  lemma CountsOnes(o: Object, n: nat, d: Draw)
    requires n < TWO_63 && o.content == OnesList(n) && Legal(HoldEnv(), Cel, FAMILY, METRIC, o, d)
    ensures MetricCount(HoldEnv(), FAMILY, METRIC, o, d) == n
  {
    CountByRows(HoldEnv(), Cel, FAMILY, METRIC, o, d);
    DrawsOnes(o, n, d);
    hide Legal;
    var c := ContextOf(HoldEnv(), FAMILY, METRIC, o, d);
    forall i: nat | i < n ensures RowWritable(c, d.run, i) { assert d.run[i] == "1"; }
  }

  lemma DrawsOnes(o: Object, n: nat, d: Draw)
    requires n < TWO_63 && o.content == OnesList(n) && Legal(HoldEnv(), Cel, FAMILY, METRIC, o, d)
    ensures "v" !in d.r && d.run == seq(n, i => "1") && Lists(HoldEnv(), FAMILY, METRIC, d) == map[]
  {
    hide Resolves, Collect.IsRun;
    assert LabelsOf(FAMILY, METRIC) == [];
    assert Held(o.content) == OnesList(n);
    hide AnchorOrder, StaticLabels, LabelRuns;
    assert Resolves("v", OnesList(n), d.r);
    var more := SomeRunFrom(d.r, []);
    OnesRun(n, d.r, more);
    OnesRun(n, d.r, d.run);
  }

  /** A text the object is rendered as. */
  ghost function TextOf(u: Uid, n: nat): (t: string)
    ensures n < TWO_63 ==> Outcome(HoldEnv(), FAMILY, Sizable(u, n), t, n)
  {
    hide Outcome;
    if n < TWO_63 then
      assert exists t :: Outcome(HoldEnv(), FAMILY, Sizable(u, n), t, n) by { var t := RendersOnes(u, n); }
      var t :| Outcome(HoldEnv(), FAMILY, Sizable(u, n), t, n);
      t
    else ""
  }

  ghost function StoreWith(limits: Limits): Machine<Object> {
    MachineOf(HoldEnv(), [FAMILY], [], Cel, limits)
  }

  ghost function Witnessing(limits: Limits): Sized<Object> {
    Sized(StoreWith(limits), Sizable, (u: Uid, n: nat) => TextOf(u, n))
  }

  lemma Witnesses(limits: Limits)
    ensures Renders(Witnessing(limits))
  {
    hide Outcome, HoldEnv, Lines;
    var w := Witnessing(limits);
    assert Store.Names([FAMILY]) == ["f"];
    forall g: nat, u: Uid, n: nat | 0 < g && n < TWO_63
      ensures w.machine.outcome(g, 0, w.obj(u, n), w.text(u, n), n)
    {
      SameConfig(g);
    }
    forall u: Uid, n: nat | n < TWO_63 ensures Lines(w.text(u, n)) == n {
      HoldValid();
      CountFidelity(HoldEnv(), FAMILY, Sizable(u, n), w.text(u, n), n);
    }
  }

  lemma {:induction false} SameConfig(g: nat)
    ensures ConfigAt(FAMILY, [], Cel, g) == FAMILY
  {
    NoCopies(g);
  }

  lemma {:induction false} NoCopies(g: nat)
    ensures Copies([], g) == []
  {
    if g > 0 {
      NoCopies(g - 1);
    }
  }

  // ---- the runs ----------------------------------------------------------------------------------

  /** The soft-cutoff bounds cannot be improved: for every limit on the store or on
      its family, and every largest count most > 0, a run of a store as the program
      builds it shows exactly the reach of the limit plus most. */
  lemma SoftCutoffTight(limits: Limits, most: nat) returns (ops: seq<Op<Object>>, states: seq<Snapshot<Object>>)
    requires most > 0 && OneLimit(limits) && Reach(TheLimit(limits)) + most < TWO_63
    ensures HoldEnv().Valid() && StoreMachine.IsRun(StoreWith(limits), ops, states)
    ensures Attained(limits, ops, states, most)
  {
    HoldValid();
    Witnesses(limits);
    hide Renders, StoreMachine.IsRun, Attained, OneLimit, TheLimit, Reach, HoldEnv;
    ops, states := BoundsAttained(Witnessing(limits), most);
  }

  /** And a family without a limit of its own that its store's limit cuts off stays
      so: a run of such a store that leaves it empty, within its limit and cut off,
      after any number of further checks. */
  lemma CutoffStays(limits: Limits, checks: nat) returns (ops: seq<Op<Object>>, states: seq<Snapshot<Object>>)
    requires StoreLimitOnly(limits)
    ensures HoldEnv().Valid() && StoreMachine.IsRun(StoreWith(limits), ops, states) && |ops| == checks + 2
    ensures CutAndEmpty(states[|ops|])
  {
    HoldValid();
    Witnesses(limits);
    hide Renders, StoreMachine.IsRun, CutAndEmpty, StoreLimitOnly, HoldEnv;
    ops, states := CutForGood(Witnessing(limits), checks);
  }
}
