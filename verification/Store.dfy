/** The metrics store of one resource type (internal/store.go): its methods are
    the steps of the state machine in StoreMachine. */
module Store {
  import opened Basics
  import opened Resources
  import opened Tracker
  import opened Family
  import opened StoreMachine

  // ---- what inheritance does to a family ---------------------------------------------

  /** n copies of the store's labels. */
  function Copies(labels: seq<Label>, n: nat): seq<Label> {
    if n == 0 then [] else Copies(labels, n - 1) + labels
  }

  /** A family's configuration when the g-th object is rendered: the store's
      labels are appended again for every object. */
  function ConfigAt(c: Config, labels: seq<Label>, resolver: ResolverKind, g: nat): Config {
    c.(labels := c.labels + Copies(labels, g),
       resolver := if g > 0 && c.resolver == Inherit then resolver else c.resolver)
  }

  function Names(configs: seq<Config>): seq<string> {
    seq(|configs|, i requires 0 <= i < |configs| => configs[i].name)
  }

  /** The state machine a store with these families implements. */
  ghost function MachineOf(env: Env, configs: seq<Config>, labels: seq<Label>, resolver: ResolverKind,
                           limits: Limits): Machine<Object> {
    Machine(Names(configs), limits,
            (g: nat, i: nat, o: Object, t: string, c: nat) =>
              0 < g && i < |configs| && Outcome(env, ConfigAt(configs[i], labels, resolver, g), o, t, c))
  }

  ghost predicate Match(families: seq<FamilyType>, configs: seq<Config>, labels: seq<Label>, resolver: ResolverKind,
                        g: nat, done: nat)
    reads families
  {
    && |configs| == |families| && Distinct(families)
    && (forall i | 0 <= i < |families| ::
          families[i].name == configs[i].name && families[i].metrics == configs[i].metrics)
    && (forall i | 0 <= i < |families| ::
          families[i].Abs() == ConfigAt(configs[i], labels, resolver, if i < done then g + 1 else g))
  }

  // ---- the store object ------------------------------------------------------------------

  class StoreType {
    const env: Env
    const group: string
    const version: string
    const kind: string
    const families: seq<FamilyType>
    const resolver: ResolverKind
    const labels: seq<Label>
    const cardinalityTracker: CardinalityTracker
    const headers: seq<string>
    var metrics: map<Uid, seq<string>>
    var synced: bool
    ghost const configs: seq<Config>
    ghost var live: map<Uid, Object>
    ghost var generation: nat

    function Identifier(): string {
      group + "/" + version + "/" + kind
    }

    /** The first done families have inherited for the g+1st time, the others g times. */
    ghost predicate FamiliesAt(g: nat, done: nat)
      reads families
    {
      Match(families, configs, labels, resolver, g, done)
    }

    ghost predicate Valid()
      reads this, cardinalityTracker, families
    {
      env.Valid() && cardinalityTracker.Valid() && FamiliesAt(generation, 0)
    }

    ghost function CutFlags(): seq<bool>
      reads families
    {
      seq(|families|, i requires 0 <= i < |families| reads families => families[i].cutoff)
    }

    ghost function Abs(): Snapshot<Object>
      reads this, cardinalityTracker, families
    {
      Snapshot(metrics, live, cardinalityTracker.Abs(), CutFlags(), generation)
    }

    ghost function Machine(): Machine<Object>
      reads cardinalityTracker
    {
      MachineOf(env, configs, labels, resolver, cardinalityTracker.Abs().limits)
    }

    constructor (env: Env, group: string, version: string, kind: string, families: seq<FamilyType>,
                 resolver: ResolverKind,
                 labels: seq<Label>, tracker: CardinalityTracker, headers: seq<string>)
      requires env.Valid() && Distinct(families) && tracker.Valid()
      requires tracker.Abs() == State(map[], {}, {}, tracker.Abs().limits)
      requires forall i | 0 <= i < |families| :: !families[i].cutoff
      ensures Valid() && Abs() == Init(Machine())
      ensures this.families == families && cardinalityTracker == tracker && this.labels == labels && this.env == env
      ensures this.headers == headers && this.resolver == resolver && Identifier() == group + "/" + version + "/" + kind
      ensures cardinalityTracker.Abs() == old(tracker.Abs())
                && configs == seq(|families|, i requires 0 <= i < |families| reads families => families[i].Abs())
    {
      this.env, this.group, this.version, this.kind := env, group, version, kind;
      this.families, this.resolver, this.labels := families, resolver, labels;
      cardinalityTracker, this.headers := tracker, headers;
      metrics, synced, live, generation := map[], false, map[], 0;
      configs := seq(|families|, i requires 0 <= i < |families| reads families => families[i].Abs());
      new;
      forall i | 0 <= i < |families| ensures families[i].Abs() == ConfigAt(configs[i], labels, resolver, 0) {
        assert families[i].Abs().labels + [] == families[i].Abs().labels;
      }
    }

    lemma Inherited(i: nat, f: Config)
      requires i < |configs| && f == ConfigAt(configs[i], labels, resolver, generation)
      ensures f.(labels := f.labels + labels, resolver := if f.resolver == Inherit then resolver else f.resolver)
           == ConfigAt(configs[i], labels, resolver, generation + 1)
    {
      assert configs[i].labels + (Copies(labels, generation) + labels)
          == configs[i].labels + Copies(labels, generation) + labels;
    }

    method InheritAt(i: nat)
      requires i < |families| && FamiliesAt(generation, i)
      modifies families
      ensures FamiliesAt(generation, i + 1) && CutFlags() == old(CutFlags())
      ensures families[i].Abs() == ConfigAt(configs[i], labels, resolver, generation + 1)
    {
      hide ConfigAt;
      Inherited(i, families[i].Abs());
      families[i].InheritFamilyConfiguration(labels, resolver);
    }

    /** The loop body of generateMetricsForObject. */
    method GenerateFamily(o: Object, i: nat) returns (metricStr: string, sampleCount: nat, ghost full: string)
      requires env.Valid() && i < |families| && FamiliesAt(generation, i)
      modifies families
      ensures FamiliesAt(generation, i + 1) && CutFlags() == old(CutFlags())
      ensures Outcome(env, ConfigAt(configs[i], labels, resolver, generation + 1), o, full, sampleCount)
      ensures metricStr == if families[i].cutoff then "" else full
    {
      hide Outcome, ConfigAt, Match;
      InheritAt(i);
      metricStr, sampleCount := families[i].BuildMetricString(env, o);
      full :| Outcome(env, families[i].Abs(), o, full, sampleCount)
          && metricStr == if families[i].cutoff then "" else full;
    }

    method GenerateMetricsForObject(o: Object)
      returns (row: seq<string>, perFamily: Counts, ghost texts: seq<string>, ghost counts: seq<nat>)
      requires Valid()
      modifies families
      ensures FamiliesAt(generation, |families|) && CutFlags() == old(CutFlags())
      ensures Outcomes(Machine(), generation + 1, o, texts, counts)
      ensures row == Row(CutFlags(), texts) && perFamily == CountMap(Names(configs), counts)
    {
      hide Match, Rendered, Outcomes, MachineOf, Row, CountMap, ConfigAt, Outcome;
      FamilyNames(generation, 0);
      ghost var flags := CutFlags();
      row, perFamily, texts, counts := [], map[], [], [];
      NoneRendered(env, configs, labels, resolver, generation + 1, o, flags);
      for i := 0 to |families|
        invariant FamiliesAt(generation, i) && CutFlags() == flags
        invariant Rendered(env, configs, labels, resolver, generation + 1, o, flags, i, row, perFamily, texts, counts)
      {
        var metricStr, sampleCount;
        ghost var full;
        metricStr, sampleCount, full := GenerateFamily(o, i);
        assert CutFlags()[i] == families[i].cutoff && Names(configs)[i] == families[i].name;
        OneMoreFamily(env, configs, labels, resolver, generation + 1, o, flags, i, row, perFamily, texts, counts, full,
            sampleCount);
        row, texts := row + [metricStr], texts + [full];
        perFamily, counts := perFamily[families[i].name := sampleCount], counts + [sampleCount];
      }
      RenderedAll(env, configs, labels, resolver, cardinalityTracker.Abs().limits, generation + 1, o, flags, row,
          perFamily, texts, counts);
    }

    /** Checks the thresholds and copies the tracker's verdict to every family. */
    method CheckAndApplyThresholds() returns (violations: seq<Violation>)
      requires cardinalityTracker.Valid() && Distinct(families)
      modifies cardinalityTracker, families
      ensures cardinalityTracker.Valid() && cardinalityTracker.Abs() == Checked(old(cardinalityTracker.Abs()))
      ensures CutFlags()
                == Flags(seq(|families|, i requires 0 <= i < |families| => families[i].name), cardinalityTracker.Abs())
      ensures forall i | 0 <= i < |families| :: families[i].Abs() == old(families[i].Abs())
      ensures multiset(violations) == Violations(old(cardinalityTracker.Abs()))
    {
      hide Checked, Violations;
      violations := cardinalityTracker.CheckThresholds();
      ghost var st := cardinalityTracker.Abs();
      for i := 0 to |families|
        invariant cardinalityTracker.Valid() && cardinalityTracker.Abs() == st
        invariant forall j | 0 <= j < i :: families[j].cutoff == (families[j].name in cardinalityTracker.Abs().cut)
        invariant forall j | 0 <= j < |families| :: families[j].Abs() == old(families[j].Abs())
      {
        var cutoff := cardinalityTracker.IsFamilyCutoff(families[i].name);
        families[i].SetCutoff(cutoff);
      }
    }

    /** The names of the families are those of the configurations. */
    lemma FamilyNames(g: nat, done: nat)
      requires FamiliesAt(g, done)
      ensures |families| == |configs|
      ensures seq(|families|, i requires 0 <= i < |families| => families[i].name) == Names(configs)
    {
    }

    /** One atomic step of the machine: a check after the given changes. */
    method Finish(ghost g: nat, ghost done: nat) returns (violations: seq<Violation>)
      requires env.Valid() && cardinalityTracker.Valid() && FamiliesAt(g, done)
      modifies cardinalityTracker, families
      ensures cardinalityTracker.Valid() && FamiliesAt(g, done)
      ensures cardinalityTracker.Abs() == Checked(old(cardinalityTracker.Abs()))
      ensures CutFlags() == Flags(Names(configs), cardinalityTracker.Abs())
      ensures multiset(violations) == Violations(old(cardinalityTracker.Abs()))
    {
      hide Checked, Violations, ConfigAt, Names;
      FamilyNames(g, done);
      violations := CheckAndApplyThresholds();
    }

    /** A nil argument stands for an object that cannot be converted. */
    method Add(objectI: Option<Object>) returns (failed: bool)
      requires Valid()
      modifies this, cardinalityTracker, families
      ensures Valid() && Machine() == old(Machine()) && synced == old(synced)
      ensures failed == (objectI == None)
      ensures Step(old(Machine()), old(Abs()), AddOf(objectI), Abs())
    {
      if objectI == None {
        return true;
      }
      AddObject(objectI.value);
      return false;
    }

    method AddObject(o: Object)
      requires Valid()
      modifies this, cardinalityTracker, families
      ensures Valid() && Machine() == old(Machine()) && synced == old(synced)
      ensures Step(old(Machine()), old(Abs()), Op.Add(o.uid, o), Abs())
    {
      hide Step, Outcomes, Checked, ConfigAt, Row, CountMap, MachineOf;
      ghost var m, s := Machine(), Abs();
      MachineNames(env, configs, labels, resolver, cardinalityTracker.Abs().limits);
      var row, perFamily;
      ghost var texts, counts;
      row, perFamily, texts, counts := GenerateMetricsForObject(o);
      Store(o, row, perFamily);
      AddIsStep(m, s, o, texts, counts, row, perFamily, Abs());
    }

    /** The second half of Add: cache the row, count it, check. */
    method Store(o: Object, row: seq<string>, perFamily: Counts)
      requires env.Valid() && cardinalityTracker.Valid() && FamiliesAt(generation, |families|)
      modifies this, cardinalityTracker, families
      ensures Valid() && cardinalityTracker.Abs().limits == old(cardinalityTracker.Abs().limits)
                && synced == old(synced)
      ensures Abs() == Added(old(Abs()), Names(configs), o, row, perFamily)
    {
      hide Checked, Match, Flags, Names;
      metrics := metrics[o.uid := row];
      Count(o.uid, perFamily, generation);
      live, generation := live[o.uid := o], generation + 1;
    }

    /** The new counts go to the tracker, and the thresholds are checked. */
    method Count(uid: Uid, perFamily: Counts, ghost g: nat)
      requires env.Valid() && cardinalityTracker.Valid() && FamiliesAt(g, |families|)
      modifies cardinalityTracker, families
      ensures cardinalityTracker.Valid() && FamiliesAt(g + 1, 0)
      ensures cardinalityTracker.Abs() == Checked(old(cardinalityTracker.Abs()).(
                objects := old(cardinalityTracker.Abs().objects)[uid := perFamily],
                known := old(cardinalityTracker.Abs().known) + perFamily.Keys))
      ensures cardinalityTracker.Abs().limits == old(cardinalityTracker.Abs().limits)
      ensures CutFlags() == Flags(Names(configs), cardinalityTracker.Abs())
    {
      hide Checked, ConfigAt, Flags, Violations;
      cardinalityTracker.Update(uid, perFamily);
      CheckedKeeps(cardinalityTracker.Abs());
      var _ := Finish(g, |families|);
    }

    method Update(objectI: Option<Object>) returns (failed: bool)
      requires Valid()
      modifies this, cardinalityTracker, families
      ensures Valid() && Machine() == old(Machine()) && synced == old(synced)
      ensures failed == (objectI == None)
      ensures Step(old(Machine()), old(Abs()), AddOf(objectI), Abs())
    {
      failed := Add(objectI);
    }

    /** None stands for an argument without object metadata. */
    method Delete(uid: Option<Uid>) returns (failed: bool)
      requires Valid()
      modifies this, cardinalityTracker, families
      ensures Valid() && Machine() == old(Machine()) && synced == old(synced)
      ensures failed == (uid == None)
      ensures Step(old(Machine()), old(Abs()), if uid == None then Rejected else Op.Delete(uid.value), Abs())
    {
      if uid == None {
        return true;
      }
      hide Match, Flags, Checked, Names;
      metrics := metrics - {uid.value};
      Uncount(uid.value);
      live := live - {uid.value};
      return false;
    }

    /** The counts of the object go, and the thresholds are checked. */
    method Uncount(uid: Uid)
      requires env.Valid() && cardinalityTracker.Valid() && FamiliesAt(generation, 0)
      modifies cardinalityTracker, families
      ensures cardinalityTracker.Valid() && FamiliesAt(generation, 0)
      ensures cardinalityTracker.Abs() == Checked(old(cardinalityTracker.Abs()).(
                objects := old(cardinalityTracker.Abs().objects) - {uid}))
      ensures cardinalityTracker.Abs().limits == old(cardinalityTracker.Abs().limits)
      ensures CutFlags() == Flags(Names(configs), cardinalityTracker.Abs())
    {
      hide Checked, ConfigAt, Flags, Violations;
      cardinalityTracker.Delete(uid);
      CheckedKeeps(cardinalityTracker.Abs());
      var _ := Finish(generation, 0);
    }

    /** Adds every item; an item that cannot be converted is logged and passed
        over. Objects missing from the list are kept. */
    method Replace(items: seq<Option<Object>>) returns (ghost states: seq<Snapshot<Object>>)
      requires Valid()
      modifies this, cardinalityTracker, families
      ensures Valid() && Machine() == old(Machine()) && synced
      ensures Steps(old(Machine()), Adds(items), states) && states[0] == old(Abs()) && states[|items|] == Abs()
      ensures metrics.Keys == old(metrics).Keys + Uids(items) && live.Keys == old(live).Keys + Uids(items)
    {
      hide Step, Machine, Match, Uids, Names;
      ghost var m, adds := Machine(), Adds(items);
      states := [Abs()];
      for i := 0 to |items|
        invariant Valid() && Machine() == m && |states| == i + 1
        invariant states[0] == old(Abs()) && states[i] == Abs()
        invariant forall j: nat | j < i :: Step(m, states[j], adds[j], states[j + 1])
      {
        var _ := Add(items[i]);
        states := states + [Abs()];
      }
      synced := true;
      OnlyAdds(m, items, states, |items|);
      assert items[..|items|] == items;
    }

    method IsSynced() returns (r: bool)
      ensures r == synced
    {
      r := synced;
    }

    /** The periodic cardinality aggregation re-runs the check. */
    method Recheck() returns (violations: seq<Violation>)
      requires Valid()
      modifies cardinalityTracker, families
      ensures Valid() && Machine() == old(Machine())
      ensures Step(old(Machine()), old(Abs()), Check, Abs())
      ensures multiset(violations) == Violations(old(cardinalityTracker.Abs()))
    {
      violations := Finish(generation, 0);
    }
  }

  // ---- what Replace does -----------------------------------------------------------------

  function AddOf(item: Option<Object>): Op<Object> {
    if item == None then Rejected else Op.Add(item.value.uid, item.value)
  }

  function Adds(items: seq<Option<Object>>): (r: seq<Op<Object>>)
    ensures |r| == |items|
  {
    seq(|items|, i requires 0 <= i < |items| => AddOf(items[i]))
  }

  function Uids(items: seq<Option<Object>>): set<Uid> {
    set i | 0 <= i < |items| && items[i] != None :: items[i].value.uid
  }

  ghost predicate Steps<O>(m: Machine<O>, ops: seq<Op<O>>, states: seq<Snapshot<O>>) {
    && |states| == |ops| + 1
    && forall i: nat | i < |ops| :: Step(m, states[i], ops[i], states[i + 1])
  }

  /** After a run of adds, exactly the objects from before and those in the list
      are there. */
  lemma {:induction false} OnlyAdds(m: Machine<Object>, items: seq<Option<Object>>, states: seq<Snapshot<Object>>,
                                    n: nat)
    requires Steps(m, Adds(items), states) && n <= |items|
    ensures states[n].cache.Keys == states[0].cache.Keys + Uids(items[..n])
    ensures states[n].live.Keys == states[0].live.Keys + Uids(items[..n])
  {
    if n > 0 {
      hide Step;
      OnlyAdds(m, items, states, n - 1);
      OneAdd(m, states[n - 1], items[n - 1], states[n]);
      assert items[..n] == items[..n - 1] + [items[n - 1]];
      UidsAppend(items[..n - 1], items[n - 1]);
    }
  }

  /** So the store holds just what is listed exactly if it held nothing else before. */
  lemma RelistIff(m: Machine<Object>, items: seq<Option<Object>>, states: seq<Snapshot<Object>>)
    requires Steps(m, Adds(items), states)
    ensures states[|items|].cache.Keys == Uids(items) <==> states[0].cache.Keys <= Uids(items)
  {
    hide Step;
    OnlyAdds(m, items, states, |items|);
    assert items[..|items|] == items;
  }

  lemma OneAdd(m: Machine<Object>, s: Snapshot<Object>, item: Option<Object>, s': Snapshot<Object>)
    requires Step(m, s, AddOf(item), s')
    ensures s'.cache.Keys == s.cache.Keys + Uids([item]) && s'.live.Keys == s.live.Keys + Uids([item])
  {
    hide Checked, CountMap;
    assert item != None ==> [item][0].value.uid in Uids([item]);
  }

  lemma UidsAppend(items: seq<Option<Object>>, item: Option<Object>)
    ensures Uids(items + [item]) == Uids(items) + Uids([item])
  {
    forall u | u in Uids(items) + Uids([item]) ensures u in Uids(items + [item]) {
      if u in Uids(items) {
        var i :| 0 <= i < |items| && items[i] != None && items[i].value.uid == u;
        assert (items + [item])[i] == items[i];
      } else {
        assert (items + [item])[|items|] == item;
      }
    }
    forall u | u in Uids(items + [item]) ensures u in Uids(items) + Uids([item]) {
      var i :| 0 <= i < |items + [item]| && (items + [item])[i] != None && (items + [item])[i].value.uid == u;
      assert i == |items| ==> [item][0] == item;
    }
  }

  lemma MachineNames(env: Env, configs: seq<Config>, labels: seq<Label>, resolver: ResolverKind, limits: Limits)
    ensures MachineOf(env, configs, labels, resolver, limits).names == Names(configs)
  {
  }

  lemma CheckedKeeps(st: State)
    ensures Checked(st).limits == st.limits
  {
  }

  /** A snapshot after one object was rendered as row with the given counts. */
  ghost function Added(s: Snapshot<Object>, names: seq<string>, o: Object, row: seq<string>,
                       perFamily: Counts): Snapshot<Object> {
    var tracker := Checked(s.tracker.(objects := s.tracker.objects[o.uid := perFamily],
        known := s.tracker.known + perFamily.Keys));
    Snapshot(s.cache[o.uid := row], s.live[o.uid := o], tracker, Flags(names, tracker), s.generation + 1)
  }

  lemma AddIsStep(m: Machine<Object>, s: Snapshot<Object>, o: Object, texts: seq<string>, counts: seq<nat>,
                  row: seq<string>, perFamily: Counts, s': Snapshot<Object>)
    requires |s.flags| == |m.names| && Outcomes(m, s.generation + 1, o, texts, counts)
    requires row == Row(s.flags, texts) && perFamily == CountMap(m.names, counts)
    requires s' == Added(s, m.names, o, row, perFamily)
    ensures Step(m, s, Op.Add(o.uid, o), s')
  {
    hide Checked, CountMap, Row;
    assert s' == AddWith(m, s, o.uid, o, texts, counts);
  }

  /** The first n families are rendered as texts with these counts. */
  ghost predicate Rendered(env: Env, configs: seq<Config>, labels: seq<Label>, resolver: ResolverKind, g: nat,
                           o: Object,
                           flags: seq<bool>, n: nat, row: seq<string>, perFamily: Counts, texts: seq<string>,
                               counts: seq<nat>) {
    && |texts| == |counts| == n <= |configs| == |flags|
    && row == Row(flags[..n], texts) && perFamily == CountMap(Names(configs)[..n], counts)
    && forall j: nat | j < n :: Outcome(env, ConfigAt(configs[j], labels, resolver, g), o, texts[j], counts[j])
  }

  lemma NoneRendered(env: Env, configs: seq<Config>, labels: seq<Label>, resolver: ResolverKind, g: nat, o: Object,
                     flags: seq<bool>)
    requires |flags| == |configs|
    ensures Rendered(env, configs, labels, resolver, g, o, flags, 0, [], map[], [], [])
  {
    hide Outcome;
  }

  lemma OneMoreFamily(env: Env, configs: seq<Config>, labels: seq<Label>, resolver: ResolverKind, g: nat, o: Object,
                      flags: seq<bool>, n: nat, row: seq<string>, perFamily: Counts, texts: seq<string>,
                          counts: seq<nat>,
                      text: string, count: nat)
    requires n < |configs| && Rendered(env, configs, labels, resolver, g, o, flags, n, row, perFamily, texts, counts)
    requires Outcome(env, ConfigAt(configs[n], labels, resolver, g), o, text, count)
    ensures Rendered(env, configs, labels, resolver, g, o, flags, n + 1, row + [if flags[n] then "" else text],
                     perFamily[configs[n].name := count], texts + [text], counts + [count])
  {
    hide Outcome, ConfigAt;
    var names := Names(configs);
    assert names[..n + 1][..n] == names[..n] && names[..n + 1][n] == configs[n].name
        && (counts + [count])[..n] == counts;
    assert Row(flags[..n + 1], texts + [text]) == Row(flags[..n], texts) + [if flags[n] then "" else text];
  }

  lemma RenderedAll(env: Env, configs: seq<Config>, labels: seq<Label>, resolver: ResolverKind, limits: Limits, g: nat,
                    o: Object,
                    flags: seq<bool>, row: seq<string>, perFamily: Counts, texts: seq<string>, counts: seq<nat>)
    requires 0 < g && Rendered(env, configs, labels, resolver, g, o, flags, |configs|, row, perFamily, texts, counts)
    ensures Outcomes(MachineOf(env, configs, labels, resolver, limits), g, o, texts, counts)
    ensures |flags| == |texts| && row == Row(flags, texts)
    ensures |Names(configs)| == |counts| && perFamily == CountMap(Names(configs), counts)
  {
    hide Outcome, ConfigAt, Row, CountMap;
    assert flags[..|configs|] == flags && Names(configs)[..|configs|] == Names(configs);
  }
}
