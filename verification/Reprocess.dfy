/** Cutoff flags and cached output along the runs of a store: when a family is
    cut off, and what reprocessing all live objects does. */
module Reprocess {
  import opened Float
  import opened Tracker
  import opened StoreMachine

  // ---- when a family is cut off ------------------------------------------------

  /** State j of the run had the store over its limit with f known. */
  ghost predicate StoreCutIn<O>(states: seq<Snapshot<O>>, j: nat, f: string) {
    j < |states| && f in states[j].tracker.known && StoreExceeded(states[j].tracker)
  }

  lemma FlagIsCut<O>(m: Machine<O>, s: Snapshot<O>, i: nat)
    requires Inv(m, s) && i < |m.names|
    ensures s.flags[i] <==> m.names[i] in s.tracker.cut
    ensures s.flags[i] <==> m.names[i] in s.tracker.known + s.tracker.cut && CutAfterCheck(s.tracker, m.names[i])
  {
    assert Checked(s.tracker).cut == s.tracker.cut;
  }

  lemma UnlimitedStep<O>(m: Machine<O>, s: Snapshot<O>, op: Op<O>, s': Snapshot<O>, i: nat)
    requires Inv(m, s) && Step(m, s, op, s') && Inv(m, s')
    requires i < |m.names| && !HasOwnLimit(m.limits, m.names[i])
    ensures s'.flags[i] <==> s.flags[i] || (m.names[i] in s'.tracker.known && StoreExceeded(s'.tracker))
  {
    hide StoreExceeded, Judge, Recorded, CountMap, Outcomes;
    FlagIsCut(m, s, i);
    FlagIsCut(m, s', i);
    CutGrows(m, s, op, s', m.names[i]);
  }

  /** The flags a step checks against are those of the state before it. */
  lemma CutGrows<O>(m: Machine<O>, s: Snapshot<O>, op: Op<O>, s': Snapshot<O>, f: string)
    requires Quiescent(m, s) && Step(m, s, op, s')
    requires !HasOwnLimit(m.limits, f)
    ensures f in s'.tracker.cut <==> f in s.tracker.cut || (f in s'.tracker.known && StoreExceeded(s'.tracker))
  {
    hide Judge, CountMap, TotalSum;
    assert f in Checked(s.tracker).cut <==> f in s.tracker.cut;
    match op
    case Rejected =>
    case Check =>
    case Delete(uid) =>
    case Add(uid, obj) =>
      var texts, counts :| Outcomes(m, s.generation + 1, obj, texts, counts)
          && s' == AddWith(m, s, uid, obj, texts, counts);
  }

  /** In every state of every run, FamilyType.cutoff of a known family with its
      own limit says whether it, or the store, is over the limit now. */
  lemma LimitedFamilyCutoff<O>(m: Machine<O>, ops: seq<Op<O>>, states: seq<Snapshot<O>>, n: nat, i: nat)
    requires IsRun(m, ops, states) && n < |states|
    requires i < |m.names| && HasOwnLimit(m.limits, m.names[i]) && m.names[i] in states[n].tracker.known
    ensures i < |states[n].flags|
    ensures states[n].flags[i] <==> FamilyExceeded(states[n].tracker, m.names[i]) || StoreExceeded(states[n].tracker)
  {
    RunKeepsInv(m, ops, states, n);
    FlagIsCut(m, states[n], i);
  }

  /** A family without its own limit is cut off exactly when some state of the
      run so far had the store over its limit: there is no recovery. */
  lemma {:induction false} UnlimitedFamilyCutoff<O>(m: Machine<O>, ops: seq<Op<O>>, states: seq<Snapshot<O>>, n: nat,
                                                    i: nat)
    requires IsRun(m, ops, states) && n < |states|
    requires i < |m.names| && !HasOwnLimit(m.limits, m.names[i])
    ensures i < |states[n].flags|
    ensures states[n].flags[i] <==> exists j: nat :: j <= n && StoreCutIn(states, j, m.names[i])
    decreases n
  {
    hide Step, StoreExceeded;
    RunKeepsInv(m, ops, states, n);
    if n > 0 {
      RunKeepsInv(m, ops, states, n - 1);
      UnlimitedFamilyCutoff(m, ops, states, n - 1, i);
      UnlimitedStep(m, states[n - 1], ops[n - 1], states[n], i);
      if states[n].flags[i] && !states[n - 1].flags[i] {
        assert StoreCutIn(states, n, m.names[i]);
      }
      if j: nat :| j <= n && StoreCutIn(states, j, m.names[i]) {
        assert j <= n - 1 || j == n;
      }
    }
  }

  // ---- reprocessing ----------------------------------------------------------------

  /** Every operation re-adds a live object unchanged, and every step is legal. */
  ghost predicate Reprocessing<O>(m: Machine<O>, s: Snapshot<O>, ops: seq<Op<O>>, states: seq<Snapshot<O>>) {
    && |states| == |ops| + 1 && states[0] == s
    && (forall j: nat | j < |ops| :: Step(m, states[j], ops[j], states[j + 1]))
    && (forall j | 0 <= j < |ops| :: ops[j].Add? && ops[j].uid in s.live && ops[j].obj == s.live[ops[j].uid])
  }

  /** Row u shows, for every family, nothing if it is cut off and a full
      rendering of the live object otherwise. */
  ghost predicate Settled<O>(m: Machine<O>, s: Snapshot<O>, u: Uid)
    requires u in s.live && u in s.cache
  {
    && |s.cache[u]| == |s.flags| == |m.names|
    && forall i: nat | i < |m.names| ::
         if s.flags[i] then s.cache[u][i] == ""
         else exists g, c :: m.outcome(g, i, s.live[u], s.cache[u][i], c)
  }

  lemma SameCounts<O(!new)>(m: Machine<O>, obj: O, row: seq<string>, c: Counts, g: nat, texts: seq<string>,
                     counts: seq<nat>)
    requires Repeatable(m, obj) && Recorded(m, obj, row, c) && Outcomes(m, g, obj, texts, counts)
    ensures c == CountMap(m.names, counts)
  {
    hide CountMap;
    var g0, texts0, counts0 :| FromRendering(m, obj, row, c, g0, texts0, counts0);
    forall i: nat | i < |m.names| ensures counts0[i] == counts[i] {
      assert m.outcome(g0, i, obj, texts0[i], counts0[i]);
      assert m.outcome(g, i, obj, texts[i], counts[i]);
    }
    assert counts0 == counts;
  }

  lemma ReAdd<O(!new)>(m: Machine<O>, s: Snapshot<O>, u: Uid, s': Snapshot<O>)
    requires Inv(m, s) && u in s.live && Repeatable(m, s.live[u]) && Step(m, s, Add(u, s.live[u]), s')
    ensures Inv(m, s')
    ensures s'.tracker == s.tracker && s'.flags == s.flags && s'.live == s.live
    ensures u in s'.cache && s'.cache == s.cache[u := s'.cache[u]] && Settled(m, s', u)
  {
    hide Repeatable, Recorded, CountMap, Checked;
    var texts, counts :| Outcomes(m, s.generation + 1, s.live[u], texts, counts)
                         && s' == AddWith(m, s, u, s.live[u], texts, counts);
    AddKeepsInv(m, s, u, s.live[u], texts, counts);
    SameCounts(m, s.live[u], s.cache[u], s.tracker.objects[u], s.generation + 1, texts, counts);
    CountMapFacts(m.names, counts);
    var c := CountMap(m.names, counts);
    assert s.tracker.objects[u := c] == s.tracker.objects;
    assert s.tracker.known + c.Keys == s.tracker.known;
    assert s.tracker.(objects := s.tracker.objects, known := s.tracker.known) == s.tracker;
    assert s.live[u := s.live[u]] == s.live;
    forall i: nat | i < |m.names| && !s.flags[i]
      ensures m.outcome(s.generation + 1, i, s.live[u], s'.cache[u][i], counts[i])
    {
    }
  }

  lemma SettledKept<O(!new)>(m: Machine<O>, s: Snapshot<O>, s': Snapshot<O>, u: Uid, v: Uid)
    requires v in s.live && v in s.cache && Settled(m, s, v) && u != v
    requires u in s'.cache && s'.cache == s.cache[u := s'.cache[u]] && s'.flags == s.flags && s'.live == s.live
    ensures v in s'.cache && Settled(m, s', v)
  {
  }

  /** From any reachable state, re-adding live objects unchanged, in any order
      and any number of times, leaves counts, cutoff flags and violations as
      they were, and every object re-added at least once ends up either blank
      or fully rendered, family by family. */
  lemma {:induction false} ReprocessFixpoint<O(!new)>(m: Machine<O>, s: Snapshot<O>, ops: seq<Op<O>>,
                                                     states: seq<Snapshot<O>>, n: nat)
    requires Inv(m, s) && Reprocessing(m, s, ops, states) && n < |states|
    requires forall u | u in s.live :: Repeatable(m, s.live[u])
    ensures Inv(m, states[n])
    ensures states[n].tracker == s.tracker && states[n].flags == s.flags && states[n].live == s.live
    ensures Violations(states[n].tracker) == Violations(s.tracker)
    ensures forall j | 0 <= j < n ::
              ops[j].uid in states[n].live && ops[j].uid in states[n].cache && Settled(m, states[n], ops[j].uid)
    decreases n
  {
    hide Step, Violations, Repeatable, Settled, Inv;
    if n > 0 {
      var before, after := states[n - 1], states[n];
      ReprocessFixpoint(m, s, ops, states, n - 1);
      ReAdd(m, before, ops[n - 1].uid, after);
      forall j | 0 <= j < n
        ensures ops[j].uid in after.live && ops[j].uid in after.cache && Settled(m, after, ops[j].uid)
      {
        if ops[j].uid != ops[n - 1].uid {
          SettledKept(m, before, after, ops[n - 1].uid, ops[j].uid);
        }
      }
    }
  }

  /** The same from the start of a run, with every live object re-added. */
  lemma ReprocessEverything<O(!new)>(m: Machine<O>, ops: seq<Op<O>>, states: seq<Snapshot<O>>,
                                     again: seq<Op<O>>, after: seq<Snapshot<O>>)
    requires IsRun(m, ops, states) && forall u | u in states[|ops|].live :: Repeatable(m, states[|ops|].live[u])
    requires Reprocessing(m, states[|ops|], again, after)
    requires forall u | u in states[|ops|].live :: Add(u, states[|ops|].live[u]) in again
    ensures after[|again|].tracker == states[|ops|].tracker && after[|again|].flags == states[|ops|].flags
    ensures after[|again|].live == states[|ops|].live && after[|again|].cache.Keys == after[|again|].live.Keys
    ensures forall u | u in after[|again|].live :: Settled(m, after[|again|], u)
  {
    hide Step, Repeatable, Settled;
    RunKeepsInv(m, ops, states, |ops|);
    ReprocessFixpoint(m, states[|ops|], again, after, |again|);
    forall u | u in after[|again|].live ensures Settled(m, after[|again|], u) {
      assert Add(u, states[|ops|].live[u]) in again;
    }
  }
}
