/** Inputs on which the conditions of the results fail, and so do the results. */
module Examples {
  import opened Basics
  import opened Values
  import opened Flatten
  import opened Collect
  import Leaves
  import opened Resources
  import opened Resolvers
  import opened Exposition
  import opened Labels
  import opened Expansion
  import opened Samples
  import opened Family
  import opened FamilyFacts
  import opened MetricValues
  import opened Store
  import opened Generations
  import opened Counts

  /** {"l": ["t"]} */
  function Nested(t: string): Value {
    Map(map["l" := List([Scalar(t)])])
  }

  /** {"a": {"l": ["1"]}, "b": {"l": ["x"]}}: both lists are named l. */
  function Both(): Value {
    Map(map["a" := Nested("1"), "b" := Nested("x")])
  }

  /** "v" is one value, "l" a list of one, anything else is Both. */
  function Evaluated(query: string): Value {
    if query == "v" then Scalar("1") else if query == "l" then Nested("x") else Both()
  }

  function ExampleEnv(): Env {
    Env((instant: int, query: string, content: Value) => Evaluated(query),
        (query: string, content: Value) => None,
        (s: string) => if s == "1" then Some(Finite(1.0)) else None,
        (x: Number) => "1",
        (s: string) => if s == "" || s == "1" then s else "n")
  }

  // ---- what the values flatten to -----------------------------------------------------

  lemma FirstName()
    ensures Indexed("l", 0) == "l#0" && IndexOf("l#0") == Some(0)
  {
    Leaves.IndexedIndex("l", 0);
    assert "l" + "#" + Itoa(0) == "l#0";
  }

  lemma NestedFinals(t: string, name: string, parent: string, k: string)
    ensures Finals(Nested(t), name, parent, k) == if k == "l#0" then {t} else {}
  {
    var v, list := Nested(t), List([Scalar(t)]);
    FirstName();
    assert Finals(Scalar(t), "l#0", "l", k) == if k == "l#0" then {t} else {};
    assert ListFinals(list, 0, "l", k) == {};
    assert ListFinals(list, 1, "l", k) == if k == "l#0" then {t} else {};
    OneEntry(v, "l", name, parent, k);
  }

  /** A map with one entry ends up with what the entry does. */
  lemma OneEntry(v: Value, entry: string, name: string, parent: string, k: string)
    requires v.Map? && v.entries.Keys == {entry}
    ensures Finals(v, name, parent, k) == Finals(v.entries[entry], entry, entry, k)
  {
    var hops := [Entry(entry)];
    MapFinals(v, name, parent, hops, k);
    assert hops == [] + [Entry(entry)] && Entry(entry) in Hops(v);
    OneMoreFinal(v, [], Entry(entry), k);
    hide Finals;
    assert FinalsAlong(v, [], k) == {};
  }

  lemma TwoEntries(v: Value, e1: string, e2: string, name: string, parent: string, k: string)
    requires v.Map? && v.entries.Keys == {e1, e2}
    ensures Finals(v, name, parent, k) == Finals(v.entries[e1], e1, e1, k) + Finals(v.entries[e2], e2, e2, k)
  {
    var one, hops := [Entry(e1)], [Entry(e1), Entry(e2)];
    MapFinals(v, name, parent, hops, k);
    assert one == [] + [Entry(e1)] && hops == one + [Entry(e2)] && Entry(e1) in Hops(v) && Entry(e2) in Hops(v);
    OneMoreFinal(v, [], Entry(e1), k);
    OneMoreFinal(v, one, Entry(e2), k);
    hide Finals;
    assert FinalsAlong(v, [], k) == {};
  }

  lemma BothFinals(name: string, parent: string, k: string)
    ensures Finals(Both(), name, parent, k) == if k == "l#0" then {"1", "x"} else {}
  {
    var v := Both();
    assert v.entries.Keys == {"a", "b"} && v.entries["a"] == Nested("1") && v.entries["b"] == Nested("x");
    hide Nested, Both;
    NestedFinals("1", "a", "a", k);
    NestedFinals("x", "b", "b", k);
    TwoEntries(v, "a", "b", name, parent, k);
  }

  lemma EvaluatedTexts(query: string, k: string)
    ensures Texts(query, Evaluated(query), k)
         == if query == "v" then (if k == query then {"1"} else {})
            else if k != "l#0" then {} else if query == "l" then {"x"} else {"1", "x"}
  {
    NestedFinals("x", "", FieldParent(query), k);
    BothFinals("", FieldParent(query), k);
    hide Finals;
  }

  lemma ExampleTexts(instant: int, query: string, content: Value, k: string)
    ensures TextsAt(ExampleEnv(), instant, query, content, k) == Texts(query, Evaluated(query), k)
  {
    hide Texts;
  }

  lemma ExampleValid()
    ensures ExampleEnv().Valid()
  {
    hide Resolves, Texts;
    forall query, r | Resolves(query, Evaluated(query), r) ensures |r| < TWO_63 {
      forall k | k in r ensures k in {query, "l#0"} {
        ResolvesTexts(query, Evaluated(query), k);
        EvaluatedTexts(query, k);
      }
      assert r.Keys <= {query, "l#0"};
      SmallSet(r.Keys, {query, "l#0"});
    }
  }

  lemma SmallSet(a: set<string>, b: set<string>)
    requires a <= b
    ensures |a| <= |b|
  {
    assert b == a + (b - a);
  }

  lemma ExampleFixed(rk: ResolverKind, query: string, content: Value)
    ensures NamesFixed(ExampleEnv(), rk, query, content)
  {
    hide Texts;
    forall i, j, k ensures TextsAt(ExampleEnv(), i, query, content, k) == TextsAt(ExampleEnv(), j, query, content, k) {
      ExampleTexts(i, query, content, k);
      ExampleTexts(j, query, content, k);
    }
  }

  // ---- a store label with a list ------------------------------------------------------------

  /** One object, one metric with a single value, and a store label that holds a
      list of one entry: the n-th rendering counts n samples or more. */
  lemma CountGrowsForGood(o: Object, g: nat) returns (d: Draw)
    requires g > 0
    ensures var env, m, labels := ExampleEnv(), Metric([], "v", Cel), [Label("l", "l")];
            var f := ConfigAt(Config("f", [m], [], Cel), labels, Cel, g);
            env.Valid() && Legal(env, Cel, f, m, o, d) && MetricCount(env, f, m, o, d) >= g
  {
    var env, m, lb := ExampleEnv(), Metric([], "v", Cel), Label("l", "l");
    var f := Config("f", [m], [], Cel);
    hide Env.MayResolve, NamesFixed, Legal, MetricCount, ConfigAt, ExampleEnv;
    ExampleValid();
    d := SomeDraw(env, Cel, ConfigAt(f, [lb], Cel, g), m, o);
    forall each | each in m.labels + f.labels + [lb] ensures NamesFixed(env, Cel, each.value, o.content) {
      ExampleFixed(Cel, each.value, o.content);
    }
    ListLabelExample(o, lb);
    SingleExample(f, m, o, [lb], g, d);
    SameResolver(f, [lb], m, g);
    CountGrows(env, Cel, f, [lb], Cel, m, o, lb, g, d);
  }

  lemma SameResolver(f: Config, labels: seq<Label>, m: Metric, g: nat)
    requires f.resolver == Cel && m.resolver == Cel
    ensures ResolverOf(ConfigAt(f, labels, Cel, g), m) == Some(Cel)
  {
  }

  lemma ListLabelExample(o: Object, lb: Label)
    requires lb.value == "l"
    ensures ListLabel(ExampleEnv(), Cel, lb, o)
  {
    hide Texts, ExampleEnv;
    FirstName();
    ExampleTexts(0, "l", o.content, "l");
    EvaluatedTexts("l", "l");
    ExampleTexts(0, "l", o.content, "l#0");
    EvaluatedTexts("l", "l#0");
    assert NameIn(ExampleEnv(), Cel, lb.value, o, "l#0");
  }

  lemma SingleExample(f: Config, m: Metric, o: Object, labels: seq<Label>, g: nat, d: Draw)
    requires m.value == "v" && f.name == "f" && Legal(ExampleEnv(), Cel, ConfigAt(f, labels, Cel, g), m, o, d)
    ensures WritableValue(ExampleEnv(), f, m, d)
  {
    hide AllResolve, StaticLabels, LabelRuns, AnchorOrder, Expanded, ValueRun;
    assert d.r == map["v" := "1"];
  }

  // ---- a name with a leading digit ------------------------------------------------------------

  /** A label named 1 keeps that name, and a reader rejects all that is printed. */
  lemma LeadingDigit(o: Object) returns (d: Draw)
    ensures var env, m := ExampleEnv(), Metric([Label("1", "v")], "v", Cel);
            var f := Config("f", [m], [], Cel);
            && LegalDraws(env, f, o, [d], 1) && FamilyCount(env, f, o, [d], 1) == 1
            && ReadSamples(FamilyText(env, f, o, [d], 1)) == None
  {
    var env, m := ExampleEnv(), Metric([Label("1", "v")], "v", Cel);
    var f := Config("f", [m], [], Cel);
    hide Legal, MetricText, MetricCount, RowText, ReadSamples, ExampleEnv;
    d := SomeDraw(env, Cel, f, m, o);
    DigitRow(f, m, o, d);
    DigitText(o);
    OneMetric(env, f, o, d);
  }

  lemma DigitText(o: Object)
    ensures var c := Context(ExampleEnv(), o, "f", Gauge, "1");
            c.env.parse("1").Some? && ReadSamples(RowText(c, Row(["1"], ["1"]), "1")) == None
  {
    hide RowText, ReadSamples, MetricName;
    var text := RowText(Context(ExampleEnv(), o, "f", Gauge, "1"), Row(["1"], ["1"]), "1");
    PrefixedName();
    DigitRejected(Context(ExampleEnv(), o, "f", Gauge, "1"), Row(["1"], ["1"]), "1", "");
    assert text + "" == text;
  }

  lemma PrefixedName()
    ensures MetricName(PREFIX + "f")
  {
    assert forall i | 0 <= i < |PREFIX| :: NameChar(PREFIX[i]);
  }

  /** A line whose first label name starts as no name may cannot be read. */
  lemma DigitRejected(c: Context, row: Row, value: string, rest: string)
    requires MetricName(PREFIX + c.name) && |row.keys| == |row.values| && c.env.parse(value).Some?
    requires row.keys != [] && row.keys[0] != [] && !NameStart(row.keys[0][0]) && row.keys[0][0] != '}'
    ensures ReadSamples(RowText(c, row, value) + rest) == None
  {
    var keys, values := row.keys + AutoKeys(), row.values + AutoValues(c.obj);
    var name, after := PREFIX + c.name, " " + ValueText(c.env, value) + "\n" + rest;
    var x := LabelsFrom("", keys, values) + after;
    hide LabelsFrom, MetricName, LabelBlock, ReadLabels;
    BlockText(keys, values, after);
    BlockRead(x);
    NoLabels(x);
    assert RowText(c, row, value) + rest == name + ("{" + x);
    NameThen(name, "{" + x);
    hide ReadBlock;
  }

  lemma NoLabels(x: string)
    requires x != [] && !NameStart(x[0])
    ensures ReadLabels(x) == None
  {
  }

  lemma NameThen(name: string, rest: string)
    requires MetricName(name) && rest != [] && !MetricNameChar(rest[0]) && ReadBlock(rest) == None
    ensures ReadSamples(name + rest) == None
  {
    SpanOf(MetricNameChar, name, rest);
    assert (name + rest)[|name|..] == rest;
  }

  lemma DigitRow(f: Config, m: Metric, o: Object, d: Draw)
    requires m == Metric([Label("1", "v")], "v", Cel) && f == Config("f", [m], [], Cel)
    requires Legal(ExampleEnv(), Cel, f, m, o, d)
    ensures MetricCount(ExampleEnv(), f, m, o, d) == 1
    ensures MetricText(ExampleEnv(), f, m, o, d)
         == RowText(Context(ExampleEnv(), o, "f", Gauge, "1"), Row(["1"], ["1"]), "1")
  {
    DigitDraw(f, m, o, d);
    hide Legal;
    var c := Context(ExampleEnv(), o, "f", Gauge, "1");
    assert ContextOf(ExampleEnv(), f, m, o, d) == c;
    assert RowsOf(ExampleEnv(), f, m, d) == [Row(["1"], ["1"])];
    assert RowWritable(c, [], 0);
    assert RowsText(c, [], []) == "";
  }

  lemma DigitDraw(f: Config, m: Metric, o: Object, d: Draw)
    requires m == Metric([Label("1", "v")], "v", Cel) && f == Config("f", [m], [], Cel)
    requires Legal(ExampleEnv(), Cel, f, m, o, d)
    ensures Formed(f, m, d) && d.r == map["v" := "1"] && d.keys == ["1"] && d.values == ["1"] && d.run == []
    ensures Lists(ExampleEnv(), f, m, d) == map[]
  {
    RowsWellFormed(ExampleEnv(), Cel, f, m, o, d);
    hide AnchorOrder, StaticLabels, Env.MayResolve;
    SingleResolution(o, d.r);
    SingleResolution(o, d.rs[0]);
    assert LabelsOf(f, m) == [Label("1", "v")] && d.rs == [map["v" := "1"]];
    OneStatic(d.keys, d.values);
    OneExpanded(d.runs);
  }

  lemma OneStatic(keys: seq<string>, values: seq<string>)
    requires StaticLabels(ExampleEnv(), [Label("1", "v")], [map["v" := "1"]], keys, values)
    ensures keys == ["1"] && values == ["1"]
  {
    var labels, rs := [Label("1", "v")], [map["v" := "1"]];
    assert labels[..0] == [] && rs[..0] == [];
    assert StaticPairs(ExampleEnv(), labels, rs) == multiset{("1", "1")};
    var pairs := Zip(keys, values);
    assert |multiset(pairs)| == 1;
    assert pairs[0] in multiset(pairs);
  }

  lemma OneExpanded(runs: seq<seq<string>>)
    requires |runs| == 1
    ensures Expanded(ExampleEnv(), [Label("1", "v")], [map["v" := "1"]], runs) == map[]
  {
    assert [Label("1", "v")][..0] == [];
  }

  lemma SingleResolution(o: Object, r: Resolution)
    requires ExampleEnv().MayResolve(Cel, "v", o.content, r)
    ensures r == map["v" := "1"]
  {
  }

  // ---- two lists of one name ------------------------------------------------------------------

  /** A metric without labels whose value is Both: depending on which of the two
      entries the resolver visits last, it counts one sample or none. So its count
      is not a function of the object, and indeed it is not steady. */
  lemma CountVaries(o: Object) returns (d: Draw, e: Draw)
    ensures var env, m := ExampleEnv(), Metric([], "w", Cel);
            var f := Config("f", [m], [], Cel);
            && env.Valid() && Legal(env, Cel, f, m, o, d) && Legal(env, Cel, f, m, o, e)
            && MetricCount(env, f, m, o, d) == 1 && MetricCount(env, f, m, o, e) == 0
            && !SteadyCount(env, Cel, f, [], m, o)
  {
    var env, m := ExampleEnv(), Metric([], "w", Cel);
    var f := Config("f", [m], [], Cel);
    ExampleValid();
    d := MixedDraw("1", f, m, o);
    e := MixedDraw("x", f, m, o);
    hide Env.MayResolve, Legal, MetricCount, ExampleEnv, NamesFixed, SteadyCount;
    assert Copies([], 1) == [] && ConfigAt(f, [], Cel, 1) == f by { assert f.labels + [] == f.labels; }
    ExampleFixed(Cel, m.value, o.content);
    MetricRepeatsIff(env, Cel, f, [], Cel, m, o);
    assert MayCount(env, Cel, f, [], Cel, m, o, 1, 1) && MayCount(env, Cel, f, [], Cel, m, o, 1, 0);
  }

  lemma MixedDraw(t: string, f: Config, m: Metric, o: Object) returns (d: Draw)
    requires (t == "1" || t == "x") && m == Metric([], "w", Cel) && f == Config("f", [m], [], Cel)
    ensures Legal(ExampleEnv(), Cel, f, m, o, d) && d.run == [t]
    ensures MetricCount(ExampleEnv(), f, m, o, d) == if t == "1" then 1 else 0
  {
    var env := ExampleEnv();
    var r := ExampleResolution(t, o);
    d := Draw([], r, [], [], [], [t], []);
    assert LabelsOf(f, m) == [];
    ExampleLegal(f, m, o, r, [t]);
    ExampleWritable(f, m, o, d, t);
    hide Legal, MetricCount, ExampleEnv, RowCountOf, AllWritable;
    CountByRows(env, Cel, f, m, o, d);
  }

  lemma ExampleLegal(f: Config, m: Metric, o: Object, r: Resolution, run: seq<string>)
    requires LabelsOf(f, m) == [] && ExampleEnv().MayResolve(Cel, m.value, o.content, r) && ValueRun(m, r, run)
    ensures Legal(ExampleEnv(), Cel, f, m, o, Draw([], r, [], [], [], run, []))
    ensures Lists(ExampleEnv(), f, m, Draw([], r, [], [], [], run, [])) == map[]
  {
    hide Env.MayResolve, ValueRun;
  }

  lemma ExampleWritable(f: Config, m: Metric, o: Object, d: Draw, t: string)
    requires d.run == [t] && m.value !in d.r && f.name == "f"
    ensures RowCountOf(map[], d.run) == 1
    ensures AllWritable(ContextOf(ExampleEnv(), f, m, o, d), d.run, 1) <==> t == "1"
  {
    var c := ContextOf(ExampleEnv(), f, m, o, d);
    assert RowWritable(c, d.run, 0) <==> t == "1";
  }

  lemma ExampleResolution(t: string, o: Object) returns (r: Resolution)
    requires t == "1" || t == "x"
    ensures ExampleEnv().MayResolve(Cel, "w", o.content, r) && ValueRun(Metric([], "w", Cel), r, [t])
    ensures "w" !in r
  {
    hide Texts, Resolves, IndexOf;
    EvaluatedTexts("w", "l#0");
    ResolvesTexts("w", Evaluated("w"), "l#0");
    r :| Resolves("w", Evaluated("w"), r) && "l#0" in r && r["l#0"] == t;
    forall k ensures k in r <==> k == "l#0" {
      EvaluatedTexts("w", k);
      ResolvesTexts("w", Evaluated("w"), k);
    }
    FirstName();
    assert IsEntry(r, 0, t);
    assert ExampleEnv().evaluate(0, "w", o.content) == Evaluated("w");
  }
}
