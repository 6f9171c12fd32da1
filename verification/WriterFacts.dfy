/** What a scrape of a store contains: every cached text once, as many sample
    lines as the bounds allow, and nothing a reader could misread. */
module WriterFacts {
  import opened Basics
  import opened Resources
  import opened Exposition
  import opened LineReading
  import FloatReach
  import opened Tracker
  import opened StoreMachine
  import opened SoftCutoff
  import Family
  import FamilyFacts
  import opened Store
  import StoreFacts
  import opened Writer

  // ---- each text once ----------------------------------------------------------------

  /** Under header i every object's i-th text stands exactly once, and rows have
      no further texts: whatever the orders, nothing is lost or repeated. */
  lemma EachOnce<O>(m: Machine<O>, s: Snapshot<O>, frame: Frame, orders: seq<seq<Uid>>, i: nat, u: Uid)
    requires Inv(m, s) && |frame.headers| == |m.names| == |orders| && Orders(s.cache, orders)
    requires i < |frame.headers| && u in s.cache
    ensures |s.cache[u]| == |frame.headers| && multiset(orders[i])[u] == 1
    ensures exists j ::
              0 <= j < |orders[i]| && orders[i][j] == u && Slots(s.cache, orders[i], i)[j] == s.cache[u][i]
              && forall k | 0 <= k < |orders[i]| && orders[i][k] == u :: k == j
    ensures |orders[i]| == |s.cache|
  {
    hide Quiescent, AllRecorded;
    var order := orders[i];
    assert multiset(order) == multiset(s.cache.Keys);
    assert |order| == |multiset(s.cache.Keys)|;
    assert u in multiset(order);
    var j :| 0 <= j < |order| && order[j] == u;
    forall k | 0 <= k < |order| && order[k] == u ensures k == j {
      if k != j {
        Twice(order, j, k);
      }
    }
  }

  lemma Twice<T>(s: seq<T>, j: nat, k: nat)
    requires j < |s| && k < |s| && j != k && s[j] == s[k]
    ensures multiset(s)[s[j]] >= 2
  {
    SplitAt(s, j);
    var rest := s[..j] + s[j + 1..];
    assert rest[if k < j then k else k - 1] == s[j];
    assert s[j] in multiset(rest);
  }

  /** The first text of section i + 1 comes after all texts of section i: a scrape
      is the sections one after the other. */
  lemma {:induction false} SectionsSplit(frame: Frame, metrics: map<Uid, seq<string>>, orders: seq<seq<Uid>>, i: nat,
                                         n: nat)
      returns (rest: string)
    requires i <= n <= |frame.headers| && n <= |orders|
    ensures Sections(frame, metrics, orders, n) == Sections(frame, metrics, orders, i) + rest
    ensures i < n ==> Section(frame, metrics, i, orders[i]) <= rest
    decreases n
  {
    hide Section;
    if i == n {
      rest := "";
      assert Sections(frame, metrics, orders, n) + "" == Sections(frame, metrics, orders, n);
    } else {
      rest := SectionsSplit(frame, metrics, orders, i, n - 1);
      var more := Section(frame, metrics, n - 1, orders[n - 1]);
      assert Sections(frame, metrics, orders, i) + rest + more == Sections(frame, metrics, orders, i) + (rest + more);
      rest := rest + more;
      if i == n - 1 {
        SameLength(Sections(frame, metrics, orders, i), rest, more);
      }
    }
  }

  lemma SameLength(a: string, b: string, c: string)
    requires a + b == a + c
    ensures b == c
  {
    assert b == (a + b)[|a|..] && c == (a + c)[|a|..];
  }

  // ---- how many lines ------------------------------------------------------------------

  /** Going over the objects in any order shows the visible lines of the family. */
  lemma {:induction false} SlotsLines(metrics: map<Uid, seq<string>>, order: seq<Uid>, i: nat)
    requires multiset(order) == multiset(metrics.Keys)
    ensures Lines(Concat(Slots(metrics, order, i))) == Visible(metrics, i)
    decreases |order|
  {
    hide Lines, Sum, Concat;
    if order == [] {
      assert metrics.Keys == {} by { assert |multiset(metrics.Keys)| == 0; }
      EmptySum();
      EmptyText();
      EmptyConcat();
      assert Slots(metrics, order, i) == [] && FamilyLines(metrics, i) == map[];
    } else {
      var n, u := |order| - 1, order[|order| - 1];
      var rest := metrics - {u};
      LastKey(metrics, order);
      SlotsLines(rest, order[..n], i);
      OneMoreSlot(metrics, order, i, n);
      assert order[..n + 1] == order;
      SlotsWithout(metrics, order[..n], i, u);
      LinesAppend(Concat(Slots(metrics, order[..n], i)), Slot(metrics, u, i));
      assert FamilyLines(rest, i) == FamilyLines(metrics, i) - {u};
      SumRemove(FamilyLines(metrics, i), u);
      SlotLines(metrics, u, i);
    }
  }

  lemma SlotLines(metrics: map<Uid, seq<string>>, u: Uid, i: nat)
    requires u in metrics
    ensures Lines(Slot(metrics, u, i)) == LinesAt(metrics[u], i)
  {
  }

  lemma LastKey(metrics: map<Uid, seq<string>>, order: seq<Uid>)
    requires order != [] && multiset(order) == multiset(metrics.Keys)
    ensures order[|order| - 1] in metrics
    ensures multiset(order[..|order| - 1]) == multiset((metrics - {order[|order| - 1]}).Keys)
    ensures order[|order| - 1] !in order[..|order| - 1]
  {
    var n, u := |order| - 1, order[|order| - 1];
    assert order == order[..n] + [u];
    assert u in multiset(order);
    assert multiset(metrics.Keys) == multiset(metrics.Keys - {u}) + multiset{u};
    CancelOne(multiset(order[..n]), multiset(metrics.Keys - {u}), u);
    assert (metrics - {u}).Keys == metrics.Keys - {u};
    assert u !in multiset(order[..n]);
  }

  lemma SlotsWithout(metrics: map<Uid, seq<string>>, order: seq<Uid>, i: nat, u: Uid)
    requires u !in order
    ensures Slots(metrics - {u}, order, i) == Slots(metrics, order, i)
  {
  }

  /** Lines of the headers around family i. */
  function FrameLines(frame: Frame, i: nat): nat
    requires i < |frame.headers|
  {
    Lines(Terminated(frame.headers[i])) + Lines(After(frame, i))
  }

  lemma SectionLines(frame: Frame, metrics: map<Uid, seq<string>>, i: nat, order: seq<Uid>)
    requires i < |frame.headers| && multiset(order) == multiset(metrics.Keys)
    ensures Lines(Section(frame, metrics, i, order)) == FrameLines(frame, i) + Visible(metrics, i)
  {
    hide Lines, Concat, Visible, Terminated, After;
    var header, texts, after := Terminated(frame.headers[i]), Concat(Slots(metrics, order, i)), After(frame, i);
    SlotsLines(metrics, order, i);
    LinesAppend(header, texts);
    LinesAppend(header + texts, after);
  }

  // ---- reading a scrape ------------------------------------------------------------------

  /** A reader gets these samples from the text, whatever follows it. */
  ghost predicate Reads(text: string, samples: seq<Sample>) {
    forall rest, more | ReadSamples(rest) == Some(more) :: ReadSamples(text + rest) == Some(samples + more)
  }

  lemma ReadsNothing()
    ensures Reads("", [])
  {
    hide ReadSamples;
    forall rest, more | ReadSamples(rest) == Some(more) ensures ReadSamples("" + rest) == Some([] + more) {
      assert "" + rest == rest && [] + more == more;
    }
  }

  lemma ReadsBoth(a: string, x: seq<Sample>, b: string, y: seq<Sample>)
    requires Reads(a, x) && Reads(b, y)
    ensures Reads(a + b, x + y)
  {
    hide ReadSamples;
    forall rest, more | ReadSamples(rest) == Some(more) ensures ReadSamples(a + b + rest) == Some(x + y + more) {
      assert ReadSamples(b + rest) == Some(y + more);
      assert a + b + rest == a + (b + rest) && x + y + more == x + (y + more);
    }
  }

  lemma RenderingReads(env: Env, f: Family.Config, o: Object, draws: seq<Family.Draw>)
    requires env.Valid() && |draws| == |f.metrics|
    requires AllowedSamples(FamilyFacts.FamilySamples(env, f, o, draws, |draws|))
    ensures Reads(Family.FamilyText(env, f, o, draws, |draws|), FamilyFacts.FamilySamples(env, f, o, draws, |draws|))
  {
    hide ReadSamples, Family.FamilyText, FamilyFacts.FamilySamples, Env.Valid, AllowedSamples;
    forall rest, more | ReadSamples(rest) == Some(more)
      ensures ReadSamples(Family.FamilyText(env, f, o, draws, |draws|) + rest)
           == Some(FamilyFacts.FamilySamples(env, f, o, draws, |draws|) + more)
    {
      FamilyFacts.FamilyRoundTripFrom(env, f, o, draws, |draws|, rest, more);
    }
  }

  function Flat(parts: seq<seq<Sample>>): seq<Sample> {
    if parts == [] then [] else Flat(parts[..|parts| - 1]) + parts[|parts| - 1]
  }

  /** A cached text and what a reader gets from it: nothing from a blank, the
      family's samples from a rendering of the object. */
  ghost predicate Shows(env: Env, f: Family.Config, labels: seq<Label>, resolver: ResolverKind, o: Object,
                        text: string, samples: seq<Sample>) {
    || (text == "" && samples == [])
    || exists g: nat, draws :: g > 0 && ShowsDraws(env, ConfigAt(f, labels, resolver, g), o, draws, text, samples)
  }

  ghost predicate ShowsDraws(env: Env, f: Family.Config, o: Object, draws: seq<Family.Draw>, text: string,
                             samples: seq<Sample>) {
    && Family.LegalDraws(env, f, o, draws, |f.metrics|)
    && text == Family.FamilyText(env, f, o, draws, |draws|)
    && samples == FamilyFacts.FamilySamples(env, f, o, draws, |draws|)
  }

  /** A cached text has one line for each of its samples, and reads back if their
      names are allowed. */
  lemma ShownReads(env: Env, f: Family.Config, labels: seq<Label>, resolver: ResolverKind, o: Object,
                   text: string, samples: seq<Sample>)
    requires env.Valid() && '\n' !in f.name && Shows(env, f, labels, resolver, o, text, samples)
    ensures SampleLines(text, |samples|) && (AllowedSamples(samples) ==> Reads(text, samples))
  {
    hide Reads, Family.FamilyText, FamilyFacts.FamilySamples, Family.LegalDraws, Env.Valid, SampleLines,
        AllowedSamples;
    if text == "" && samples == [] {
      ReadsNothing();
      NoSampleLines();
    } else {
      var g: nat, draws :| g > 0 && ShowsDraws(env, ConfigAt(f, labels, resolver, g), o, draws, text, samples);
      DrawsRead(env, ConfigAt(f, labels, resolver, g), o, draws, text, samples);
    }
  }

  lemma DrawsRead(env: Env, f: Family.Config, o: Object, draws: seq<Family.Draw>, text: string, samples: seq<Sample>)
    requires env.Valid() && '\n' !in f.name && ShowsDraws(env, f, o, draws, text, samples)
    ensures SampleLines(text, |samples|) && (AllowedSamples(samples) ==> Reads(text, samples))
  {
    hide Reads, Family.FamilyText, FamilyFacts.FamilySamples, Env.Valid, SampleLines, Family.FamilyCount,
        AllowedSamples, Family.Legal;
    FamilyFacts.SamplesCounted(env, f, o, draws, |draws|);
    FamilyFacts.FamilyLines(env, f, o, draws, |draws|);
    if AllowedSamples(samples) {
      RenderingReads(env, f, o, draws);
    }
  }

  /** What stands between two headers reads back as the samples of the objects,
      one object after the other: texts never run into each other. */
  lemma {:induction false} SectionReads(metrics: map<Uid, seq<string>>, parts: seq<seq<Sample>>, order: seq<Uid>,
                                        i: nat)
    requires |parts| == |order|
    requires forall j | 0 <= j < |order| :: Reads(Slot(metrics, order[j], i), parts[j])
    ensures Reads(Concat(Slots(metrics, order, i)), Flat(parts))
    decreases |order|
  {
    hide Reads, Concat;
    if order == [] {
      ReadsNothing();
      EmptyConcat();
      assert Slots(metrics, order, i) == [];
    } else {
      var n := |order| - 1;
      SectionReads(metrics, parts[..n], order[..n], i);
      OneMoreSlot(metrics, order, i, n);
      assert order[..n + 1] == order;
      ReadsBoth(Concat(Slots(metrics, order[..n], i)), Flat(parts[..n]), Slot(metrics, order[n], i), parts[n]);
    }
  }

  /** Every cached text is a blank or a rendering of the live object. */
  lemma CachedShows(env: Env, configs: seq<Family.Config>, labels: seq<Label>, resolver: ResolverKind, limits: Limits,
                    s: Snapshot<Object>, u: Uid, i: nat) returns (samples: seq<Sample>)
    requires Inv(MachineOf(env, configs, labels, resolver, limits), s) && u in s.cache && i < |configs|
    ensures Shows(env, configs[i], labels, resolver, s.live[u], Slot(s.cache, u, i), samples)
  {
    hide Quiescent, Family.FamilyText, FamilyFacts.FamilySamples, Family.Legal, CountMap, Family.FamilyCount;
    var m := MachineOf(env, configs, labels, resolver, limits);
    assert Recorded(m, s.live[u], s.cache[u], s.tracker.objects[u]);
    var g, texts, counts :| FromRendering(m, s.live[u], s.cache[u], s.tracker.objects[u], g, texts, counts);
    assert m.outcome(g, i, s.live[u], texts[i], counts[i]);
    if s.cache[u][i] == "" {
      samples := [];
    } else {
      var f := ConfigAt(configs[i], labels, resolver, g);
      var draws :| Family.LegalDraws(env, f, s.live[u], draws, |f.metrics|)
          && Family.IsOutcome(env, f, s.live[u], draws, texts[i], counts[i]);
      samples := FamilyFacts.FamilySamples(env, f, s.live[u], draws, |draws|);
      assert ShowsDraws(env, f, s.live[u], draws, s.cache[u][i], samples);
    }
  }

  lemma {:induction false} AllShown(env: Env, configs: seq<Family.Config>, labels: seq<Label>, resolver: ResolverKind,
                                    limits: Limits,
                                    s: Snapshot<Object>, order: seq<Uid>, i: nat) returns (parts: seq<seq<Sample>>)
    requires Inv(MachineOf(env, configs, labels, resolver, limits), s) && i < |configs|
    requires forall j | 0 <= j < |order| :: order[j] in s.cache
    ensures |parts| == |order|
    ensures forall j | 0 <= j < |order| ::
              Shows(env, configs[i], labels, resolver, s.live[order[j]], Slot(s.cache, order[j], i), parts[j])
    decreases |order|
  {
    hide Shows, AllRecorded, Quiescent;
    parts := [];
    if order != [] {
      var n := |order| - 1;
      parts := AllShown(env, configs, labels, resolver, limits, s, order[..n], i);
      var part := CachedShows(env, configs, labels, resolver, limits, s, order[n], i);
      parts := parts + [part];
    }
  }

  /** In every reachable state, and whatever order the scrape goes over the
      objects: what stands under header i has one line for each sample of every
      object's rendering, or none where the family was cut off, and it reads as
      those samples, complete and in one piece, if and only if their names are
      allowed. */
  lemma SectionParts(env: Env, configs: seq<Family.Config>, labels: seq<Label>, resolver: ResolverKind, limits: Limits,
                     ops: seq<Op<Object>>, states: seq<Snapshot<Object>>, n: nat, order: seq<Uid>, i: nat)
      returns (parts: seq<seq<Sample>>)
    requires env.Valid() && IsRun(MachineOf(env, configs, labels, resolver, limits), ops, states) && n < |states|
    requires i < |configs| && '\n' !in configs[i].name && multiset(order) == multiset(states[n].cache.Keys)
    ensures |parts| == |order| && forall j | 0 <= j < |order| ::
              order[j] in states[n].live &&
              Shows(env, configs[i], labels, resolver, states[n].live[order[j]], Slot(states[n].cache, order[j], i),
                    parts[j])
    ensures SampleLines(Concat(Slots(states[n].cache, order, i)), |Flat(parts)|)
    ensures |Flat(parts)| == Visible(states[n].cache, i)
    ensures Reads(Concat(Slots(states[n].cache, order, i)), Flat(parts)) <==> AllowedSamples(Flat(parts))
  {
    hide Shows, Reads, Env.Valid, Step, Concat, Visible, ReadSamples, Quiescent, AllRecorded, SampleLines,
        AllowedSamples;
    var s, m := states[n], MachineOf(env, configs, labels, resolver, limits);
    RunKeepsInv(m, ops, states, n);
    forall j | 0 <= j < |order| ensures order[j] in s.cache { assert order[j] in multiset(order); }
    parts := AllShown(env, configs, labels, resolver, limits, s, order, i);
    forall j | 0 <= j < |order|
      ensures SampleLines(Slot(s.cache, order[j], i), |parts[j]|)
      ensures AllowedSamples(parts[j]) ==> Reads(Slot(s.cache, order[j], i), parts[j])
    {
      ShownReads(env, configs[i], labels, resolver, s.live[order[j]], Slot(s.cache, order[j], i), parts[j]);
    }
    FlatAllowed(parts);
    FlatLines(s.cache, parts, order, i);
    SectionVisible(s.cache, order, i, |Flat(parts)|);
    SectionReadsIff(s.cache, parts, order, i);
  }

  lemma SectionReadsIff(metrics: map<Uid, seq<string>>, parts: seq<seq<Sample>>, order: seq<Uid>, i: nat)
    requires |parts| == |order|
    requires forall j | 0 <= j < |order| && AllowedSamples(parts[j]) :: Reads(Slot(metrics, order[j], i), parts[j])
    ensures Reads(Concat(Slots(metrics, order, i)), Flat(parts)) <==> AllowedSamples(Flat(parts))
  {
    hide Reads, AllowedSamples, ReadSamples, Concat;
    FlatAllowed(parts);
    if AllowedSamples(Flat(parts)) {
      SectionReads(metrics, parts, order, i);
    }
    if Reads(Concat(Slots(metrics, order, i)), Flat(parts)) {
      ReadsAll(Concat(Slots(metrics, order, i)), Flat(parts));
      ReadSamplesFacts(Concat(Slots(metrics, order, i)));
    }
  }

  lemma {:induction false} FlatAllowed(parts: seq<seq<Sample>>)
    ensures AllowedSamples(Flat(parts)) <==> forall j | 0 <= j < |parts| :: AllowedSamples(parts[j])
  {
    if parts == [] {
      assert Flat(parts) == [];
    } else {
      hide AllowedSamples;
      var n := |parts| - 1;
      FlatAllowed(parts[..n]);
      AllowedBoth(Flat(parts[..n]), parts[n]);
      assert parts == parts[..n] + [parts[n]];
    }
  }

  lemma SectionVisible(metrics: map<Uid, seq<string>>, order: seq<Uid>, i: nat, n: nat)
    requires multiset(order) == multiset(metrics.Keys) && SampleLines(Concat(Slots(metrics, order, i)), n)
    ensures n == Visible(metrics, i)
  {
    hide Concat, Visible, Lines, DataLines;
    SlotsLines(metrics, order, i);
  }

  /** End to end: whatever happened to the store before, a scraper that can read
      what stands under the header of a family with limit T gets at most the reach
      of T plus what one Add produced for it. */
  lemma ScrapeBounded(env: Env, configs: seq<Family.Config>, labels: seq<Label>, resolver: ResolverKind, limits: Limits,
                      ops: seq<Op<Object>>, states: seq<Snapshot<Object>>, n: nat, order: seq<Uid>, i: nat, most: nat)
    requires env.Valid() && IsRun(MachineOf(env, configs, labels, resolver, limits), ops, states) && n < |states|
    requires StoreFacts.NoLineFeeds(configs) && Distinct(Names(configs))
               && forall j | 0 <= j < |states| :: Fits(states[j].tracker)
    requires i < |configs| && multiset(order) == multiset(states[n].cache.Keys)
    requires HasOwnLimit(limits, configs[i].name)
    requires FamilyAddsAtMost(ops, states, configs[i].name, most)
    ensures var read := ReadSamples(Concat(Slots(states[n].cache, order, i)));
            read.Some? ==> |read.value| == Visible(states[n].cache, i)
                             <= FloatReach.Reach(limits.family[configs[i].name]) + most
  {
    hide FloatReach.Reach, Env.Valid, Step, Concat, Visible, ReadSamples, Fits, FamilyAddsAtMost, Shows, Reads;
    hide Lines, DataLines, AllowedSamples;
    var parts := SectionParts(env, configs, labels, resolver, limits, ops, states, n, order, i);
    ReadSamplesFacts(Concat(Slots(states[n].cache, order, i)));
    StoreFacts.SoftCutoffBounds(env, configs, labels, resolver, limits, ops, states, n);
  }

  lemma ReadsAll(text: string, samples: seq<Sample>)
    requires Reads(text, samples)
    ensures ReadSamples(text) == Some(samples)
  {
    NothingToRead();
    hide ReadSamples;
    assert text + "" == text && samples + [] == samples;
  }

  lemma NothingToRead()
    ensures ReadSamples("") == Some([])
  {
  }

  lemma {:induction false} FlatLines(metrics: map<Uid, seq<string>>, parts: seq<seq<Sample>>, order: seq<Uid>, i: nat)
    requires |parts| == |order| && forall j | 0 <= j < |order| :: SampleLines(Slot(metrics, order[j], i), |parts[j]|)
    ensures SampleLines(Concat(Slots(metrics, order, i)), |Flat(parts)|)
    decreases |order|
  {
    hide SampleLines, Concat;
    if order == [] {
      EmptyConcat();
      NoSampleLines();
      assert Slots(metrics, order, i) == [];
    } else {
      var n := |order| - 1;
      FlatLines(metrics, parts[..n], order[..n], i);
      OneMoreSlot(metrics, order, i, n);
      assert order[..n + 1] == order;
      SampleLinesBoth(Concat(Slots(metrics, order[..n], i)), |Flat(parts[..n])|, Slot(metrics, order[n], i),
                      |parts[n]|);
    }
  }
}
