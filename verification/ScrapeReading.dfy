/** Reading a whole scrape of a store: headers, texts and _created samples. */
module ScrapeReading {
  import opened Basics
  import opened Resources
  import opened Exposition
  import opened LineReading
  import opened Samples
  import opened Tracker
  import opened StoreMachine
  import opened SoftCutoff
  import opened Family
  import FamilyFacts
  import opened AllowedNames
  import opened Store
  import StoreFacts
  import Configurer
  import opened Writer
  import opened WriterFacts

  /** The headers the families of these configurations get. */
  function FrameFor(configs: seq<Config>, helps: seq<string>, createdAt: string): Frame
    requires |helps| == |configs|
  {
    Frame(seq(|configs|, i requires 0 <= i < |configs| => FamilyHeader(configs[i].name, helps[i])),
          seq(|configs|, i requires 0 <= i < |configs| => PeripheralHeader(configs[i].name, createdAt)))
  }

  /** The _created sample of a counter. */
  function Created(name: string, createdAt: string): seq<Sample> {
    if KindOf(name) == Counter
    then [Sample(CreatedName(name), [], [], createdAt)]
    else []
  }

  // ---- headers ---------------------------------------------------------------------------

  lemma GoesOnAfter(prefix: string, s: string)
    requires '\n' !in prefix
    ensures CommentsGoOn(prefix + s) <==> CommentsGoOn(s)
  {
    var all, n := prefix + s, |prefix|;
    if CommentsGoOn(all) {
      forall i | 0 <= i < |s| && s[i] == '\n' ensures i + 1 < |s| && s[i + 1] == '#' {
        assert all[n + i] == '\n' && |all| == n + |s|;
        assert all[n + i + 1] == '#';
      }
    }
    if CommentsGoOn(s) {
      forall i | 0 <= i < |all| && all[i] == '\n' ensures i + 1 < |all| && all[i + 1] == '#' {
        assert i >= n && s[i - n] == '\n';
      }
    }
  }

  function HelpLine(name: string): string {
    "# HELP " + PREFIX + name + " "
  }

  function TypeLine(name: string): string {
    "# TYPE " + PREFIX + name + " " + KindText(KindOf(name))
  }

  lemma HeaderText(name: string, help: string)
    ensures Terminated(FamilyHeader(name, help)) == (HelpLine(name) + help + "\n") + (TypeLine(name) + "\n")
  {
    hide KindText, KindOf;
    assert FamilyHeader(name, help) == HelpLine(name) + help + "\n" + TypeLine(name);
  }

  lemma HeaderStarts(name: string)
    requires '\n' !in name
    ensures HelpLine(name) != [] && HelpLine(name)[0] == '#' && '\n' !in HelpLine(name)
    ensures TypeLine(name) != [] && TypeLine(name)[0] == '#' && '\n' !in TypeLine(name)
  {
    hide KindOf;
    assert '\n' !in PREFIX;
    assert '\n' !in KindText(KindOf(name));
  }

  /** A header is comment lines only exactly if every line feed in the help text is
      followed by a number sign. */
  lemma HeaderLines(name: string, help: string)
    requires '\n' !in name
    ensures WholeLines(Terminated(FamilyHeader(name, help)))
    ensures DataLines(Terminated(FamilyHeader(name, help))) == 0 <==> CommentsGoOn(help)
  {
    hide HelpLine, TypeLine, DataLines, CommentsGoOn, Terminated, FamilyHeader;
    HeaderText(name, help);
    HeaderStarts(name);
    var first := HelpLine(name) + help;
    FirstComment(first);
    CommentsAhead(first);
    GoesOnAfter(HelpLine(name), help);
    OneLine(TypeLine(name));
    DataBoth(first + "\n", TypeLine(name) + "\n");
  }

  lemma FirstComment(line: string)
    requires line != [] && line[0] == '#'
    ensures DataLines(line + "\n") == DataLines(SkipLine(line + "\n"))
  {
    hide SkipLine;
  }

  /** A reader finds no sample in a header exactly if every line feed in the help
      text is followed by a number sign. */
  lemma HeaderRead(name: string, help: string)
    requires '\n' !in name
    ensures Reads(Terminated(FamilyHeader(name, help)), []) <==> CommentsGoOn(help)
  {
    hide ReadSamples, DataLines, CommentsGoOn, Terminated, FamilyHeader, AllowedSamples;
    var header := Terminated(FamilyHeader(name, help));
    HeaderLines(name, help);
    if DataLines(header) == 0 {
      forall rest, more | ReadSamples(rest) == Some(more) ensures ReadSamples(header + rest) == Some([] + more) {
        CommentsSkipped(header, rest);
        assert [] + more == more;
      }
    }
    if Reads(header, []) {
      ReadsAll(header, []);
      ReadSamplesFacts(header);
    }
  }

  lemma SampleReads(name: string, number: string)
    requires MetricName(name) && '\n' !in number
    ensures Reads(name + " " + number + "\n", [Sample(name, [], [], number)])
  {
    hide ReadSamples, ReadSample, MetricName;
    var text, sample := name + " " + number + "\n", Sample(name, [], [], number);
    forall rest, more | ReadSamples(rest) == Some(more) ensures ReadSamples(text + rest) == Some([sample] + more) {
      SampleRoundTrip(name, [], [], number, rest);
      assert LabelBlock([], []) == "";
      assert text + rest == name + (LabelBlock([], []) + (" " + number + "\n" + rest));
      FamilyFacts.ReadCons(text + rest, sample, rest, more);
    }
  }

  lemma PeripheralText(name: string, createdAt: string)
    requires KindOf(name) == Counter
    ensures Terminated(PeripheralHeader(name, createdAt))
         == CreatedHelp(name) + "\n" + CreatedType(name) + "\n" + (CreatedLine(name, createdAt) + "\n")
  {
    hide CreatedHelp, CreatedType, CreatedLine;
    var text := PeripheralHeader(name, createdAt);
    assert |text| >= 2;
    assert text + "\n" == CreatedHelp(name) + "\n" + CreatedType(name) + "\n" + (CreatedLine(name, createdAt) + "\n");
  }

  lemma CreatedLines(name: string, createdAt: string)
    requires KindOf(name) == Counter && '\n' !in name && '\n' !in createdAt
    ensures WholeLines(Terminated(PeripheralHeader(name, createdAt)))
    ensures DataLines(Terminated(PeripheralHeader(name, createdAt))) == 1
    ensures MetricName(CreatedName(name)) ==>
              Reads(Terminated(PeripheralHeader(name, createdAt)), [Sample(CreatedName(name), [], [], createdAt)])
  {
    PeripheralText(name, createdAt);
    CreatedOneLine(name, createdAt);
    hide CreatedName, MetricName, Reads, CreatedHelp, CreatedType, DataLines, Terminated, PeripheralHeader;
    var comments, line := CreatedHelp(name) + "\n" + CreatedType(name) + "\n", CreatedLine(name, createdAt) + "\n";
    TwoComments(CreatedHelp(name), CreatedType(name));
    OneLine(CreatedLine(name, createdAt));
    DataBoth(comments, line);
    WholeBoth(comments, line);
    if MetricName(CreatedName(name)) {
      var sample := [Sample(CreatedName(name), [], [], createdAt)];
      SampleReads(CreatedName(name), createdAt);
      ReadsBoth(comments, [], line, sample);
      assert [] + sample == sample;
    }
  }

  lemma TwoComments(first: string, second: string)
    requires first != [] && first[0] == '#' && '\n' !in first
    requires second != [] && second[0] == '#' && '\n' !in second
    ensures var s := first + "\n" + second + "\n"; WholeLines(s) && DataLines(s) == 0 && Reads(s, [])
  {
    hide ReadSamples, DataLines;
    var s := first + "\n" + second + "\n";
    assert s == (first + "\n") + (second + "\n");
    OneLine(first);
    OneLine(second);
    DataBoth(first + "\n", second + "\n");
    forall rest, more | ReadSamples(rest) == Some(more) ensures ReadSamples(s + rest) == Some([] + more) {
      CommentsSkipped(s, rest);
      assert [] + more == more;
    }
  }

  lemma CreatedOneLine(name: string, createdAt: string)
    requires '\n' !in name && '\n' !in createdAt
    ensures CreatedHelp(name) != [] && CreatedHelp(name)[0] == '#' && '\n' !in CreatedHelp(name)
    ensures CreatedType(name) != [] && CreatedType(name)[0] == '#' && '\n' !in CreatedType(name)
    ensures var line := CreatedLine(name, createdAt); line != [] && line[0] != '#' && '\n' !in line
  {
    CreatedStart(name);
    hide CreatedName;
    assert '\n' !in PREFIX;
  }

  lemma CreatedStart(name: string)
    requires '\n' !in name
    ensures CreatedName(name) != [] && CreatedName(name)[0] != '#' && '\n' !in CreatedName(name)
  {
    assert '\n' !in PREFIX && PREFIX != [] && PREFIX[0] != '#';
    assert '\n' !in TrimSuffix(name, "_total");
  }

  /** The trailing header has one line for the _created sample of a counter, and
      nothing for a gauge. */
  lemma PeripheralLines(frame: Frame, i: nat, name: string, createdAt: string)
    requires '\n' !in name && '\n' !in createdAt
    requires i < |frame.peripherals| && frame.peripherals[i] == PeripheralHeader(name, createdAt)
    ensures WholeLines(After(frame, i)) && DataLines(After(frame, i)) == |Created(name, createdAt)|
    ensures AllowedSamples(Created(name, createdAt)) ==> Reads(After(frame, i), Created(name, createdAt))
  {
    hide Reads, CreatedName, CreatedHelp, MetricName;
    if KindOf(name) == Counter {
      CreatedLines(name, createdAt);
      assert PeripheralHeader(name, createdAt) != "";
      assert AllowedSamples(Created(name, createdAt)) ==> AllowedSample(Created(name, createdAt)[0]);
    } else {
      ReadsNothing();
    }
  }

  // ---- section by section ------------------------------------------------------------------

  /** The samples of the first n sections: those of the objects, then _created. */
  function ScrapeSamples(configs: seq<Config>, parts: seq<seq<seq<Sample>>>, createdAt: string, n: nat): seq<Sample>
    requires n <= |configs| && n <= |parts|
  {
    if n == 0 then []
    else
      var last := Flat(parts[n - 1]) + Created(configs[n - 1].name, createdAt);
      ScrapeSamples(configs, parts, createdAt, n - 1) + last
  }

  lemma SectionRead(frame: Frame, metrics: map<Uid, seq<string>>, i: nat, order: seq<Uid>, samples: seq<Sample>,
                    created: seq<Sample>)
    requires i < |frame.headers| && Reads(Terminated(frame.headers[i]), []) && Reads(After(frame, i), created)
    requires Reads(Concat(Slots(metrics, order, i)), samples)
    ensures Reads(Section(frame, metrics, i, order), samples + created)
  {
    hide Reads, Terminated, After, Concat;
    var header, texts, after := Terminated(frame.headers[i]), Concat(Slots(metrics, order, i)), After(frame, i);
    ReadsBoth(header, [], texts, samples);
    assert [] + samples == samples;
    ReadsBoth(header + texts, samples, after, created);
  }

  /** The texts under header i have one line for each of these samples, and read as
      them if their names are allowed. */
  ghost predicate Sampled(metrics: map<Uid, seq<string>>, order: seq<Uid>, i: nat, samples: seq<Sample>) {
    && SampleLines(Concat(Slots(metrics, order, i)), |samples|)
    && (AllowedSamples(samples) ==> Reads(Concat(Slots(metrics, order, i)), samples))
  }

  /** Lines of help texts that are no comments. */
  function Noise(configs: seq<Config>, helps: seq<string>, n: nat): nat
    requires n <= |configs| == |helps|
  {
    if n == 0 then 0
    else Noise(configs, helps, n - 1) + DataLines(Terminated(FamilyHeader(configs[n - 1].name, helps[n - 1])))
  }

  lemma {:induction false} NoNoise(configs: seq<Config>, helps: seq<string>, n: nat)
    requires n <= |configs| == |helps| && StoreFacts.NoLineFeeds(configs)
    ensures Noise(configs, helps, n) == 0 <==> forall i | 0 <= i < n :: CommentsGoOn(helps[i])
  {
    hide CommentsGoOn, DataLines, Terminated, FamilyHeader;
    if n > 0 {
      NoNoise(configs, helps, n - 1);
      HeaderLines(configs[n - 1].name, helps[n - 1]);
    }
  }

  lemma {:induction false} SectionsLines(configs: seq<Config>, helps: seq<string>, createdAt: string,
                                         metrics: map<Uid, seq<string>>, orders: seq<seq<Uid>>,
                                         parts: seq<seq<seq<Sample>>>, n: nat)
    requires |helps| == |parts| == |orders| == |configs| && n <= |configs| && '\n' !in createdAt
    requires StoreFacts.NoLineFeeds(configs)
    requires forall i | 0 <= i < |configs| :: Sampled(metrics, orders[i], i, Flat(parts[i]))
    ensures var s := Sections(FrameFor(configs, helps, createdAt), metrics, orders, n);
            && WholeLines(s)
            && DataLines(s) == Noise(configs, helps, n) + |ScrapeSamples(configs, parts, createdAt, n)|
  {
    hide Reads, Concat, DataLines, Lines, WholeLines, After, Terminated, FamilyHeader, PeripheralHeader, Created,
        AllowedSamples;
    var frame := FrameFor(configs, helps, createdAt);
    if n == 0 {
      NoSampleLines();
    } else {
      var i := n - 1;
      SectionsLines(configs, helps, createdAt, metrics, orders, parts, i);
      assert '\n' !in configs[i].name && Sampled(metrics, orders[i], i, Flat(parts[i]));
      HeaderLines(configs[i].name, helps[i]);
      PeripheralLines(frame, i, configs[i].name, createdAt);
      var header, texts, after :=
        Terminated(frame.headers[i]), Concat(Slots(metrics, orders[i], i)), After(frame, i);
      DataBoth(header, texts);
      WholeBoth(header, texts);
      DataBoth(header + texts, after);
      WholeBoth(header + texts, after);
      DataBoth(Sections(frame, metrics, orders, i), header + texts + after);
      WholeBoth(Sections(frame, metrics, orders, i), header + texts + after);
    }
  }

  lemma {:induction false} SectionsRead(configs: seq<Config>, helps: seq<string>, createdAt: string,
                                        metrics: map<Uid, seq<string>>, orders: seq<seq<Uid>>,
                                        parts: seq<seq<seq<Sample>>>, n: nat)
    requires |helps| == |parts| == |orders| == |configs| && n <= |configs| && '\n' !in createdAt
    requires StoreFacts.NoLineFeeds(configs) && forall i | 0 <= i < |configs| :: CommentsGoOn(helps[i])
    requires forall i | 0 <= i < |configs| :: Sampled(metrics, orders[i], i, Flat(parts[i]))
    requires AllowedSamples(ScrapeSamples(configs, parts, createdAt, n))
    ensures Reads(Sections(FrameFor(configs, helps, createdAt), metrics, orders, n),
                  ScrapeSamples(configs, parts, createdAt, n))
  {
    hide Reads, Section, Concat, CommentsGoOn, AllowedSamples, SampleLines, Created, After, Terminated, FamilyHeader,
        PeripheralHeader;
    var frame := FrameFor(configs, helps, createdAt);
    if n == 0 {
      ReadsNothing();
    } else {
      var i := n - 1;
      var before, texts, created := ScrapeSamples(configs, parts, createdAt, i), Flat(parts[i]),
        Created(configs[i].name, createdAt);
      AllowedBoth(before, texts + created);
      AllowedBoth(texts, created);
      SectionsRead(configs, helps, createdAt, metrics, orders, parts, i);
      assert '\n' !in configs[i].name && Sampled(metrics, orders[i], i, texts);
      HeaderRead(configs[i].name, helps[i]);
      PeripheralLines(frame, i, configs[i].name, createdAt);
      SectionRead(frame, metrics, i, orders[i], texts, created);
      ReadsBoth(Sections(frame, metrics, orders, i), before, Section(frame, metrics, i, orders[i]), texts + created);
    }
  }

  /** A scrape reads as these samples exactly if their names are allowed and no
      help text breaks out of its comment. */
  lemma ReadsIff(configs: seq<Config>, helps: seq<string>, createdAt: string,
                 metrics: map<Uid, seq<string>>, orders: seq<seq<Uid>>, parts: seq<seq<seq<Sample>>>)
    requires |helps| == |parts| == |orders| == |configs| && '\n' !in createdAt && StoreFacts.NoLineFeeds(configs)
    requires forall i | 0 <= i < |configs| :: Sampled(metrics, orders[i], i, Flat(parts[i]))
    ensures var samples := ScrapeSamples(configs, parts, createdAt, |configs|);
            var text := Sections(FrameFor(configs, helps, createdAt), metrics, orders, |configs|);
            ReadSamples(text) == Some(samples) <==>
              AllowedSamples(samples) && forall i | 0 <= i < |configs| :: CommentsGoOn(helps[i])
  {
    hide Reads, ReadSamples, Sections, ScrapeSamples, Sampled, CommentsGoOn, AllowedSamples, DataLines, Noise;
    var n := |configs|;
    var text, samples :=
      Sections(FrameFor(configs, helps, createdAt), metrics, orders, n), ScrapeSamples(configs, parts, createdAt, n);
    SectionsLines(configs, helps, createdAt, metrics, orders, parts, n);
    NoNoise(configs, helps, n);
    ReadSamplesFacts(text);
    if AllowedSamples(samples) && forall i | 0 <= i < |configs| :: CommentsGoOn(helps[i]) {
      SectionsRead(configs, helps, createdAt, metrics, orders, parts, n);
      ReadsAll(text, samples);
    }
  }

  // ---- the whole scrape --------------------------------------------------------------------

  /** parts are the samples of every object's i-th text, in the order of the scrape. */
  ghost predicate PartsOf(env: Env, f: Config, labels: seq<Label>, resolver: ResolverKind, s: Snapshot<Object>,
                          i: nat, order: seq<Uid>, parts: seq<seq<Sample>>) {
    && |parts| == |order|
    && forall j | 0 <= j < |order| ::
         order[j] in s.live && Shows(env, f, labels, resolver, s.live[order[j]], Slot(s.cache, order[j], i), parts[j])
  }

  ghost function VisibleUpTo(cache: map<Uid, seq<string>>, n: nat): int {
    if n == 0 then 0 else VisibleUpTo(cache, n - 1) + Visible(cache, n - 1)
  }

  function CountersUpTo(configs: seq<Config>, n: nat): nat
    requires n <= |configs|
  {
    if n == 0 then 0 else CountersUpTo(configs, n - 1) + if KindOf(configs[n - 1].name) == Counter then 1 else 0
  }

  lemma {:induction false} SomeParts(env: Env, configs: seq<Config>, labels: seq<Label>, resolver: ResolverKind,
                                     limits: Limits,
                                     ops: seq<Op<Object>>, states: seq<Snapshot<Object>>, n: nat,
                                         orders: seq<seq<Uid>>, k: nat)
      returns (parts: seq<seq<seq<Sample>>>)
    requires env.Valid() && IsRun(MachineOf(env, configs, labels, resolver, limits), ops, states) && n < |states|
    requires StoreFacts.NoLineFeeds(configs) && k <= |orders| == |configs| && Orders(states[n].cache, orders)
    ensures |parts| == k && forall i | 0 <= i < k ::
              PartsOf(env, configs[i], labels, resolver, states[n], i, orders[i], parts[i])
              && Sampled(states[n].cache, orders[i], i, Flat(parts[i]))
              && |Flat(parts[i])| == Visible(states[n].cache, i)
  {
    hide Shows, Reads, Env.Valid, Step, Concat, Visible, ReadSamples, SampleLines, AllowedSamples;
    parts := [];
    if k > 0 {
      parts := SomeParts(env, configs, labels, resolver, limits, ops, states, n, orders, k - 1);
      var part := SectionParts(env, configs, labels, resolver, limits, ops, states, n, orders[k - 1], k - 1);
      parts := parts + [part];
    }
  }

  lemma {:induction false} SamplesCounted(configs: seq<Config>, parts: seq<seq<seq<Sample>>>, createdAt: string,
                                          cache: map<Uid, seq<string>>, n: nat)
    requires n <= |configs| == |parts| && forall i | 0 <= i < |configs| :: |Flat(parts[i])| == Visible(cache, i)
    ensures |ScrapeSamples(configs, parts, createdAt, n)| == VisibleUpTo(cache, n) + CountersUpTo(configs, n)
  {
    hide Visible;
    if n > 0 {
      SamplesCounted(configs, parts, createdAt, cache, n - 1);
    }
  }

  /** After any run, and in whatever orders the scrape goes over the objects: what a
      scrape of the store prints stands for the samples of every object, family by
      family, complete and unmixed, or none where it was cut off, and the _created
      sample of each counter; as many as there are visible lines plus one per
      counter. A reader gets exactly these, and nothing else, if and only if their
      names are allowed and every line feed in a help text is followed by a number
      sign. */
  lemma WholeScrape(env: Env, configs: seq<Config>, labels: seq<Label>, resolver: ResolverKind, limits: Limits,
                    ops: seq<Op<Object>>, states: seq<Snapshot<Object>>, n: nat,
                    helps: seq<string>, createdAt: string, orders: seq<seq<Uid>>)
      returns (parts: seq<seq<seq<Sample>>>)
    requires env.Valid() && IsRun(MachineOf(env, configs, labels, resolver, limits), ops, states) && n < |states|
    requires |helps| == |orders| == |configs| && Orders(states[n].cache, orders)
    requires StoreFacts.NoLineFeeds(configs) && '\n' !in createdAt
    ensures |parts| == |configs|
    ensures forall i | 0 <= i < |configs| ::
              PartsOf(env, configs[i], labels, resolver, states[n], i, orders[i], parts[i])
    ensures var samples := ScrapeSamples(configs, parts, createdAt, |configs|);
            |samples| == VisibleUpTo(states[n].cache, |configs|) + CountersUpTo(configs, |configs|)
    ensures var samples := ScrapeSamples(configs, parts, createdAt, |configs|);
            var text := Sections(FrameFor(configs, helps, createdAt), states[n].cache, orders, |configs|);
            ReadSamples(text) == Some(samples) <==>
              AllowedSamples(samples) && forall i | 0 <= i < |configs| :: CommentsGoOn(helps[i])
  {
    hide Shows, Reads, Env.Valid, Step, Visible, ReadSamples, PartsOf, Sampled, AllowedSamples, CommentsGoOn, Sections;
    parts := SomeParts(env, configs, labels, resolver, limits, ops, states, n, orders, |configs|);
    ReadsIff(configs, helps, createdAt, states[n].cache, orders, parts);
    SamplesCounted(configs, parts, createdAt, states[n].cache, |configs|);
  }

  // ---- said of the configuration ---------------------------------------------------------------

  lemma ShownAllowed(env: Env, f: Config, labels: seq<Label>, resolver: ResolverKind, o: Object, text: string,
                     samples: seq<Sample>)
    requires Shows(env, f, labels, resolver, o, text, samples) && FamilyAllowed(env, f, labels, resolver, o)
    ensures AllowedSamples(samples)
  {
    hide FamilyText, FamilyAllowed, AllowedSample, Legal;
    if samples != [] {
      var g: nat, draws :| g > 0 && ShowsDraws(env, ConfigAt(f, labels, resolver, g), o, draws, text, samples);
      FamilyAllowedReads(env, f, labels, resolver, o, g, draws, |f.metrics|);
    }
  }

  lemma CreatedIsName(name: string)
    requires MetricName(PREFIX + name)
    ensures MetricName(CreatedName(name))
  {
    var trimmed, suffix := PREFIX + TrimSuffix(name, "_total"), "_created";
    assert forall i | 0 <= i < |trimmed| :: trimmed[i] == (PREFIX + name)[i];
    assert forall i | 0 <= i < |suffix| :: MetricNameChar(suffix[i]);
  }

  lemma PartsAllowed(env: Env, f: Config, labels: seq<Label>, resolver: ResolverKind, s: Snapshot<Object>,
                     i: nat, order: seq<Uid>, parts: seq<seq<Sample>>)
    requires PartsOf(env, f, labels, resolver, s, i, order, parts)
    requires forall u | u in s.live :: FamilyAllowed(env, f, labels, resolver, s.live[u])
    ensures AllowedSamples(Flat(parts))
  {
    hide Shows, FamilyAllowed, AllowedSamples;
    forall j | 0 <= j < |parts| ensures AllowedSamples(parts[j]) {
      ShownAllowed(env, f, labels, resolver, s.live[order[j]], Slot(s.cache, order[j], i), parts[j]);
    }
    FlatAllowed(parts);
  }

  /** Family names the format allows, and label names it allows for every live
      object, are enough. */
  lemma {:induction false} NamesSuffice(env: Env, configs: seq<Config>, labels: seq<Label>, resolver: ResolverKind,
                                        s: Snapshot<Object>, orders: seq<seq<Uid>>, parts: seq<seq<seq<Sample>>>,
                                        createdAt: string, n: nat)
    requires |parts| == |orders| == |configs| && n <= |configs|
    requires forall i | 0 <= i < |configs| :: PartsOf(env, configs[i], labels, resolver, s, i, orders[i], parts[i])
    requires forall i | 0 <= i < |configs| :: MetricName(PREFIX + configs[i].name)
    requires forall i, u | 0 <= i < |configs| && u in s.live ::
               FamilyAllowed(env, configs[i], labels, resolver, s.live[u])
    ensures AllowedSamples(ScrapeSamples(configs, parts, createdAt, n))
  {
    hide PartsOf, FamilyAllowed, CreatedName;
    if n > 0 {
      hide MetricName, AllowedSamples;
      NamesSuffice(env, configs, labels, resolver, s, orders, parts, createdAt, n - 1);
      PartsAllowed(env, configs[n - 1], labels, resolver, s, n - 1, orders[n - 1], parts[n - 1]);
      CreatedAllowed(configs[n - 1].name, createdAt);
      AllowedBoth(Flat(parts[n - 1]), Created(configs[n - 1].name, createdAt));
      AllowedBoth(ScrapeSamples(configs, parts, createdAt, n - 1),
                  Flat(parts[n - 1]) + Created(configs[n - 1].name, createdAt));
    }
  }

  lemma CreatedAllowed(name: string, createdAt: string)
    requires MetricName(PREFIX + name)
    ensures AllowedSamples(Created(name, createdAt))
  {
    CreatedIsName(name);
    hide CreatedName, MetricName;
  }

  /** The headers of a store built from a configuration are these. */
  lemma BuiltFrame(store: StoreType, spec: Configurer.StoreSpec, resourceDefault: int, warn: real, createdAt: string)
    requires Configurer.BuiltFrom(store, spec, resourceDefault, warn, createdAt)
    ensures FrameOf(store)
              == FrameFor(store.configs,
                  seq(|spec.families|, i requires 0 <= i < |spec.families| => spec.families[i].help), createdAt)
  {
    hide FamilyHeader, PeripheralHeader;
    var helps := seq(|spec.families|, i requires 0 <= i < |spec.families| => spec.families[i].help);
    var frame := FrameFor(store.configs, helps, createdAt);
    assert FrameOf(store).headers == frame.headers;
    assert FrameOf(store).peripherals == frame.peripherals;
  }
}
