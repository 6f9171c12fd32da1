/** The results about store runs, for the store with the real rendering: what
    StoreMachine leaves open is filled in by the families. */
module StoreFacts {
  import opened Basics
  import opened FloatReach
  import opened Resources
  import opened Tracker
  import opened Family
  import opened FamilyFacts
  import opened StoreMachine
  import opened SoftCutoff
  import opened Reprocess
  import opened Store
  import opened Counts

  predicate NoLineFeeds(configs: seq<Config>) {
    forall i | 0 <= i < |configs| :: '\n' !in configs[i].name
  }

  /** Every count a store works with is the number of lines rendered. */
  lemma StoreIsFaithful(env: Env, configs: seq<Config>, labels: seq<Label>, resolver: ResolverKind, limits: Limits)
    requires env.Valid() && NoLineFeeds(configs)
    ensures Faithful(MachineOf(env, configs, labels, resolver, limits))
  {
    hide Outcome, Env.Valid, Lines;
    var m := MachineOf(env, configs, labels, resolver, limits);
    forall g: nat, i: nat, o, t, c: nat | m.outcome(g, i, o, t, c) ensures Lines(t) == c {
      CountFidelity(env, ConfigAt(configs[i], labels, resolver, g), o, t, c);
    }
  }

  /** What the object's values and labels are named is the same at every instant. */
  ghost predicate FixedObject(env: Env, configs: seq<Config>, labels: seq<Label>, resolver: ResolverKind, o: Object) {
    forall i | 0 <= i < |configs| :: FixedFamily(env, configs[i], labels, resolver, o)
  }

  /** Every metric of every family has a steady count for the object. */
  ghost predicate SteadyObject(env: Env, configs: seq<Config>, labels: seq<Label>, resolver: ResolverKind, o: Object) {
    forall i | 0 <= i < |configs| :: SteadyFamily(env, configs[i], labels, resolver, o)
  }

  /** Rendering the object again gives the counts it had, for all renderings at all
      generations, exactly if it is steady. */
  lemma RepeatableIff(env: Env, configs: seq<Config>, labels: seq<Label>, resolver: ResolverKind, limits: Limits,
                      o: Object)
    requires env.Valid() && FixedObject(env, configs, labels, resolver, o)
    ensures Repeatable(MachineOf(env, configs, labels, resolver, limits), o)
       <==> SteadyObject(env, configs, labels, resolver, o)
  {
    hide Outcome, ConfigAt, FixedFamily, SteadyFamily, Env.Valid;
    var m := MachineOf(env, configs, labels, resolver, limits);
    forall i | 0 <= i < |configs|
      ensures (forall c, c' | FamilyMayCount(env, configs[i], labels, resolver, o, c)
                              && FamilyMayCount(env, configs[i], labels, resolver, o, c') :: c == c')
         <==> SteadyFamily(env, configs[i], labels, resolver, o)
    {
      FamilyRepeatsIff(env, configs[i], labels, resolver, o);
    }
    if SteadyObject(env, configs, labels, resolver, o) {
      forall g: nat, i: nat, t, c: nat, g': nat, t', c': nat | m.outcome(g, i, o, t, c) && m.outcome(g', i, o, t', c')
        ensures c == c'
      {
        assert FamilyMayCount(env, configs[i], labels, resolver, o, c);
        assert FamilyMayCount(env, configs[i], labels, resolver, o, c');
      }
    }
    if Repeatable(m, o) {
      forall i: nat, c, c' | i < |configs| && FamilyMayCount(env, configs[i], labels, resolver, o, c)
                             && FamilyMayCount(env, configs[i], labels, resolver, o, c')
        ensures c == c'
      {
        var g: nat, t :| g > 0 && Outcome(env, ConfigAt(configs[i], labels, resolver, g), o, t, c);
        var g': nat, t' :| g' > 0 && Outcome(env, ConfigAt(configs[i], labels, resolver, g'), o, t', c');
        assert m.outcome(g, i, o, t, c) && m.outcome(g', i, o, t', c');
      }
    }
  }

  /** Soft cutoff, for the store as it is: whatever is added, updated, replaced,
      deleted and checked, the sample lines cached for a family with limit T stay
      within the reach of T plus the largest count one Add produced for it, and all
      sample lines of a store with limit S within the reach of S plus the largest
      one-object total. */
  lemma SoftCutoffBounds(env: Env, configs: seq<Config>, labels: seq<Label>, resolver: ResolverKind, limits: Limits,
                         ops: seq<Op<Object>>, states: seq<Snapshot<Object>>, n: nat)
    requires env.Valid() && NoLineFeeds(configs) && Distinct(Names(configs))
    requires IsRun(MachineOf(env, configs, labels, resolver, limits), ops, states) && n < |states|
    requires forall j | 0 <= j < |states| :: Fits(states[j].tracker)
    ensures forall i: nat, most: nat | i < |configs| && HasOwnLimit(limits, configs[i].name)
                              && FamilyAddsAtMost(ops, states, configs[i].name, most) ::
              Visible(states[n].cache, i) <= Reach(limits.family[configs[i].name]) + most
    ensures forall most: nat | 0 < limits.store && AddsAtMost(ops, states, most) ::
              VisibleTotal(states[n].cache) <= Reach(limits.store) + most
  {
    hide Reach, Visible, VisibleTotal, FamilyAddsAtMost, AddsAtMost, Fits, Env.Valid, Step, Faithful;
    var m := MachineOf(env, configs, labels, resolver, limits);
    StoreIsFaithful(env, configs, labels, resolver, limits);
    forall i: nat, most: nat | i < |configs| && HasOwnLimit(limits, configs[i].name)
                              && FamilyAddsAtMost(ops, states, configs[i].name, most)
      ensures Visible(states[n].cache, i) <= Reach(limits.family[configs[i].name]) + most
    {
      assert m.names[i] == configs[i].name;
      FamilyBound(m, ops, states, i, most, n);
    }
    forall most: nat | 0 < limits.store && AddsAtMost(ops, states, most)
      ensures VisibleTotal(states[n].cache) <= Reach(limits.store) + most
    {
      StoreBound(m, ops, states, most, n);
    }
  }

  /** Reprocessing, for the store as it is: after any run, adding every live object
      again unchanged, in any order, changes no count, no cutoff flag and no
      violation, and leaves each family blank or fully rendered for all objects, if
      their counts are steady. */
  lemma ReprocessingSettles(env: Env, configs: seq<Config>, labels: seq<Label>, resolver: ResolverKind, limits: Limits,
                            ops: seq<Op<Object>>, states: seq<Snapshot<Object>>,
                            again: seq<Op<Object>>, after: seq<Snapshot<Object>>)
    requires env.Valid() && IsRun(MachineOf(env, configs, labels, resolver, limits), ops, states)
    requires Reprocessing(MachineOf(env, configs, labels, resolver, limits), states[|ops|], again, after)
    requires forall u | u in states[|ops|].live ::
               Add(u, states[|ops|].live[u]) in again
                   && FixedObject(env, configs, labels, resolver, states[|ops|].live[u])
                   && SteadyObject(env, configs, labels, resolver, states[|ops|].live[u])
    ensures var before, s := states[|ops|], after[|again|];
            && s.tracker == before.tracker && s.flags == before.flags
                && Violations(s.tracker) == Violations(before.tracker)
            && |s.flags| == |configs| && s.cache.Keys == s.live.Keys == before.live.Keys
            && forall u | u in s.live :: |s.cache[u]| == |configs| &&
                 forall i: nat | i < |configs| ::
                   if s.flags[i] then s.cache[u][i] == ""
                   else exists g, c ::
                       Outcome(env, ConfigAt(configs[i], labels, resolver, g), s.live[u], s.cache[u][i], c)
  {
    hide Outcome, ConfigAt, FixedObject, SteadyObject, Repeatable, Step, Violations, Env.Valid;
    var m := MachineOf(env, configs, labels, resolver, limits);
    forall u | u in states[|ops|].live ensures Repeatable(m, states[|ops|].live[u]) {
      RepeatableIff(env, configs, labels, resolver, limits, states[|ops|].live[u]);
    }
    ReprocessEverything(m, ops, states, again, after);
    RunKeepsInv(m, ops, states, |ops|);
    var s := after[|again|];
    forall u, i: nat | u in s.live && i < |configs| && !s.flags[i]
      ensures exists g, c :: Outcome(env, ConfigAt(configs[i], labels, resolver, g), s.live[u], s.cache[u][i], c)
    {
      assert Settled(m, s, u);
      var g, c :| m.outcome(g, i, s.live[u], s.cache[u][i], c);
    }
  }
}
