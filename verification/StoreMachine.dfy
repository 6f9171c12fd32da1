/** The life of one metrics store (internal/store.go) as a state machine: every
    Add, Delete and threshold check is one atomic step. What a family renders
    for an object is left open here, so each result holds for any rendering
    that keeps the stated facts; Store.dfy supplies the real one. */
module StoreMachine {
  import opened Basics
  import opened Tracker

  /** A store's configuration. outcome(g, i, o, t, c): at the g-th generation
      family i may render object o as text t with sample count c. */
  datatype Machine<!O> = Machine(
    names: seq<string>,
    limits: Limits,
    outcome: (nat, nat, O, string, nat) -> bool)

  datatype Op<O> = Add(uid: Uid, obj: O) | Delete(uid: Uid) | Check | Rejected

  datatype Snapshot<O> = Snapshot(
    cache: map<Uid, seq<string>>,  // rendered text per object and family
    live: map<Uid, O>,             // the object each cached row was made from
    tracker: State,
    flags: seq<bool>,              // FamilyType.cutoff, per family
    generation: nat)               // objects rendered so far

  // ---- steps --------------------------------------------------------------------

  function CountMap(names: seq<string>, counts: seq<nat>): Counts
    requires |names| == |counts|
  {
    if names == [] then map[]
    else CountMap(names[..|names| - 1], counts[..|names| - 1])[names[|names| - 1] := counts[|names| - 1]]
  }

  function Row(flags: seq<bool>, texts: seq<string>): seq<string>
    requires |flags| == |texts|
  {
    seq(|texts|, i requires 0 <= i < |texts| => if flags[i] then "" else texts[i])
  }

  ghost function Flags(names: seq<string>, st: State): seq<bool> {
    seq(|names|, i requires 0 <= i < |names| => names[i] in st.cut)
  }

  ghost predicate Outcomes<O>(m: Machine<O>, g: nat, obj: O, texts: seq<string>, counts: seq<nat>) {
    && |texts| == |counts| == |m.names|
    && forall i: nat | i < |m.names| :: m.outcome(g, i, obj, texts[i], counts[i])
  }

  ghost function Recheck<O>(m: Machine<O>, s: Snapshot<O>, tracker: State): Snapshot<O> {
    s.(tracker := Checked(tracker), flags := Flags(m.names, Checked(tracker)))
  }

  ghost function AddWith<O>(m: Machine<O>, s: Snapshot<O>, uid: Uid, obj: O,
                            texts: seq<string>, counts: seq<nat>): Snapshot<O>
    requires |texts| == |counts| == |m.names| == |s.flags|
  {
    var c := CountMap(m.names, counts);
    Recheck(m,
            s.(cache := s.cache[uid := Row(s.flags, texts)], live := s.live[uid := obj],
                generation := s.generation + 1),
            s.tracker.(objects := s.tracker.objects[uid := c], known := s.tracker.known + c.Keys))
  }

  ghost predicate Step<O>(m: Machine<O>, s: Snapshot<O>, op: Op<O>, s': Snapshot<O>) {
    match op
    case Add(uid, obj) =>
      |s.flags| == |m.names| &&
      exists texts, counts :: Outcomes(m, s.generation + 1, obj, texts, counts)
          && s' == AddWith(m, s, uid, obj, texts, counts)
    case Delete(uid) =>
      s' == Recheck(m, s.(cache := s.cache - {uid}, live := s.live - {uid}),
                    s.tracker.(objects := s.tracker.objects - {uid}))
    case Check => s' == Recheck(m, s, s.tracker)
    case Rejected => s' == s
  }

  ghost function Init<O>(m: Machine<O>): Snapshot<O> {
    Snapshot(map[], map[], State(map[], {}, {}, m.limits), seq(|m.names|, i => false), 0)
  }

  ghost predicate IsRun<O>(m: Machine<O>, ops: seq<Op<O>>, states: seq<Snapshot<O>>) {
    && |states| == |ops| + 1
    && states[0] == Init(m)
    && forall i: nat | i < |ops| :: Step(m, states[i], ops[i], states[i + 1])
  }

  // ---- facts about renderings -----------------------------------------------------

  /** The count is the number of lines of the text. */
  ghost predicate Faithful<O(!new)>(m: Machine<O>) {
    forall g, i, o, t, c :: m.outcome(g, i, o, t, c) ==> Lines(t) == c
  }

  /** Rendering the same object again gives the same count. */
  ghost predicate Repeatable<O>(m: Machine<O>, o: O) {
    forall g, i, t, c, g', t', c' :: m.outcome(g, i, o, t, c) && m.outcome(g', i, o, t', c') ==> c == c'
  }

  // ---- the invariant ---------------------------------------------------------------

  function NameSet(names: seq<string>): set<string> {
    set i | 0 <= i < |names| :: names[i]
  }

  ghost predicate Quiescent<O>(m: Machine<O>, s: Snapshot<O>) {
    && s.tracker.limits == m.limits
    && Checked(s.tracker) == s.tracker
    && s.flags == Flags(m.names, s.tracker)
  }

  ghost predicate Aligned<O>(m: Machine<O>, s: Snapshot<O>) {
    && s.cache.Keys == s.live.Keys == s.tracker.objects.Keys
    && (forall u | u in s.cache :: |s.cache[u]| == |m.names|)
    && s.tracker.known == (if s.generation == 0 then {} else NameSet(m.names))
    && (s.generation == 0 ==> s.cache == map[])
  }

  /** The counts on record were rendered from the live object, and a cached text
      is the empty string or that very rendering. */
  ghost predicate FromRendering<O>(m: Machine<O>, obj: O, row: seq<string>, c: Counts, g: nat,
                                   texts: seq<string>, counts: seq<nat>) {
    && Outcomes(m, g, obj, texts, counts)
    && c == CountMap(m.names, counts)
    && |row| == |texts|
    && forall i | 0 <= i < |row| :: row[i] == "" || row[i] == texts[i]
  }

  ghost predicate Recorded<O>(m: Machine<O>, obj: O, row: seq<string>, c: Counts) {
    exists g, texts, counts :: FromRendering(m, obj, row, c, g, texts, counts)
  }

  ghost predicate AllRecorded<O>(m: Machine<O>, s: Snapshot<O>)
    requires s.cache.Keys == s.live.Keys == s.tracker.objects.Keys
  {
    forall u | u in s.cache :: Recorded(m, s.live[u], s.cache[u], s.tracker.objects[u])
  }

  ghost predicate Inv<O>(m: Machine<O>, s: Snapshot<O>) {
    Quiescent(m, s) && Aligned(m, s) && AllRecorded(m, s)
  }

  lemma {:induction false} CountMapFacts(names: seq<string>, counts: seq<nat>)
    requires |names| == |counts|
    ensures CountMap(names, counts).Keys == NameSet(names)
    ensures forall f | f in CountMap(names, counts) :: 0 <= CountMap(names, counts)[f]
    ensures Distinct(names) ==> forall i | 0 <= i < |names| ::
              names[i] in CountMap(names, counts) && CountMap(names, counts)[names[i]] == counts[i]
  {
    if names != [] {
      var n := |names| - 1;
      CountMapFacts(names[..n], counts[..n]);
      assert NameSet(names) == NameSet(names[..n]) + {names[n]};
    }
  }

  lemma RecheckQuiescent<O>(m: Machine<O>, s: Snapshot<O>, tracker: State)
    requires tracker.limits == m.limits
    ensures Quiescent(m, Recheck(m, s, tracker))
    ensures Checked(tracker).objects == tracker.objects && Checked(tracker).known == tracker.known
  {
    CheckIdempotent(tracker);
  }

  lemma StepKeepsInv<O>(m: Machine<O>, s: Snapshot<O>, op: Op<O>, s': Snapshot<O>)
    requires Inv(m, s) && Step(m, s, op, s')
    ensures Inv(m, s')
  {
    hide Checked;
    match op
    case Rejected =>
    case Check => RecheckQuiescent(m, s, s.tracker);
    case Delete(uid) =>
      RecheckQuiescent(m, s.(cache := s.cache - {uid}, live := s.live - {uid}),
          s.tracker.(objects := s.tracker.objects - {uid}));
    case Add(uid, obj) =>
      var texts, counts :| Outcomes(m, s.generation + 1, obj, texts, counts)
          && s' == AddWith(m, s, uid, obj, texts, counts);
      AddKeepsInv(m, s, uid, obj, texts, counts);
  }

  lemma AddKeepsInv<O>(m: Machine<O>, s: Snapshot<O>, uid: Uid, obj: O, texts: seq<string>, counts: seq<nat>)
    requires Inv(m, s) && Outcomes(m, s.generation + 1, obj, texts, counts)
    ensures Inv(m, AddWith(m, s, uid, obj, texts, counts))
  {
    hide Checked, CountMap;
    var c := CountMap(m.names, counts);
    CountMapFacts(m.names, counts);
    var s' := AddWith(m, s, uid, obj, texts, counts);
    var s1 := s.(cache := s.cache[uid := Row(s.flags, texts)], live := s.live[uid := obj],
        generation := s.generation + 1);
    RecheckQuiescent(m, s1, s.tracker.(objects := s.tracker.objects[uid := c], known := s.tracker.known + c.Keys));
    assert FromRendering(m, obj, s'.cache[uid], c, s.generation + 1, texts, counts);
    forall u | u in s'.cache ensures Recorded(m, s'.live[u], s'.cache[u], s'.tracker.objects[u]) {
      if u != uid {
        assert Recorded(m, s.live[u], s.cache[u], s.tracker.objects[u]);
      }
    }
  }

  /** The invariant holds in every state of every run. */
  lemma {:induction false} RunKeepsInv<O>(m: Machine<O>, ops: seq<Op<O>>, states: seq<Snapshot<O>>, n: nat)
    requires IsRun(m, ops, states) && n < |states|
    ensures Inv(m, states[n])
    decreases n
  {
    if n == 0 {
      var s := Init(m);
      assert Checked(s.tracker).cut == {};
      assert s.flags == Flags(m.names, s.tracker);
    } else {
      RunKeepsInv(m, ops, states, n - 1);
      StepKeepsInv(m, states[n - 1], ops[n - 1], states[n]);
    }
  }
}
