/** Writing the stores out for a scrape (internal/writer.go). */
module Writer {
  import opened Basics
  import opened Expansion
  import opened Tracker
  import opened Family
  import opened Store

  // ---- the io.Writer --------------------------------------------------------------

  /** An io.Writer: what it has taken so far, and how its next calls will go. A
      failing call may still take some of the bytes. */
  datatype Call = Success | Failure(taken: nat)

  class Sink {
    var output: string
    var calls: seq<Call>

    constructor (calls: seq<Call>)
      ensures output == "" && this.calls == calls
    {
      output, this.calls := "", calls;
    }

    method Write(text: string) returns (failed: bool)
      modifies this
      ensures Took(old(output), text, output, failed)
      ensures (forall i | 0 <= i < |old(calls)| :: old(calls)[i].Success?) ==>
                !failed && forall i | 0 <= i < |calls| :: calls[i].Success?
    {
      var call := if calls == [] then Success else calls[0];
      calls := if calls == [] then [] else calls[1..];
      match call
      case Success =>
        output, failed := output + text, false;
      case Failure(n) =>
        var taken := if n < |text| then n else |text|;
        output, failed := output + text[..taken], true;
        TookPart(text, taken);
    }
  }

  /** All of the text was taken, or, on failure, some beginning of it. */
  ghost predicate Took(before: string, text: string, after: string, failed: bool) {
    if failed then exists k: nat :: k <= |text| && after == before + text[..k] else after == before + text
  }

  lemma TookPart(text: string, k: nat)
    requires k <= |text|
    ensures forall before :: Took(before, text, before + text[..k], true)
  {
  }

  /** Two texts in a row; a failure in the first leaves the second unsent. */
  lemma TookBoth(before: string, a: string, middle: string, b: string, after: string, failed: bool)
    requires Took(before, a, middle, false) && Took(middle, b, after, failed)
    ensures Took(before, a + b, after, failed)
  {
    if failed {
      var k: nat :| k <= |b| && after == middle + b[..k];
      assert (a + b)[..|a| + k] == a + b[..k];
      assert after == before + (a + b)[..|a| + k];
    } else {
      assert before + a + b == before + (a + b);
    }
  }

  lemma TookFirst(before: string, a: string, after: string, b: string)
    requires Took(before, a, after, true)
    ensures Took(before, a + b, after, true)
  {
    var k: nat :| k <= |a| && after == before + a[..k];
    assert (a + b)[..k] == a[..k];
  }

  // ---- what a scrape of one store looks like -------------------------------------------

  function Terminated(header: string): string {
    if header != "" && header != "\n" then header + "\n" else header
  }

  function Slot(metrics: map<Uid, seq<string>>, u: Uid, i: nat): string {
    if u in metrics && i < |metrics[u]| then metrics[u][i] else ""
  }

  function Slots(metrics: map<Uid, seq<string>>, order: seq<Uid>, i: nat): (r: seq<string>)
    ensures |r| == |order|
  {
    seq(|order|, j requires 0 <= j < |order| => Slot(metrics, order[j], i))
  }

  /** The headers of a store: one before and possibly one after each family. */
  datatype Frame = Frame(headers: seq<string>, peripherals: seq<string>)

  function After(frame: Frame, i: nat): string {
    if i < |frame.peripherals| && frame.peripherals[i] != "" then Terminated(frame.peripherals[i]) else ""
  }

  /** Header i, the i-th text of every object, and the trailing header. */
  function Section(frame: Frame, metrics: map<Uid, seq<string>>, i: nat, order: seq<Uid>): string
    requires i < |frame.headers|
  {
    Terminated(frame.headers[i]) + Concat(Slots(metrics, order, i)) + After(frame, i)
  }

  function Sections(frame: Frame, metrics: map<Uid, seq<string>>, orders: seq<seq<Uid>>, n: nat): string
    requires n <= |frame.headers| && n <= |orders|
  {
    if n == 0 then "" else Sections(frame, metrics, orders, n - 1) + Section(frame, metrics, n - 1, orders[n - 1])
  }

  /** Every header goes over the objects in an order of its own. */
  ghost predicate Orders(metrics: map<Uid, seq<string>>, orders: seq<seq<Uid>>) {
    forall i | 0 <= i < |orders| :: multiset(orders[i]) == multiset(metrics.Keys)
  }

  /** text is a complete scrape of the store. */
  ghost predicate IsScrape(frame: Frame, metrics: map<Uid, seq<string>>, text: string) {
    exists orders :: |orders| == |frame.headers| && Orders(metrics, orders)
                     && text == Sections(frame, metrics, orders, |frame.headers|)
  }

  function Peripherals(families: seq<FamilyType>): (r: seq<string>)
    ensures |r| == |families|
  {
    seq(|families|, i requires 0 <= i < |families| => PeripheralHeader(families[i].name, families[i].createdAt))
  }

  function FrameOf(store: StoreType): Frame {
    Frame(store.headers, Peripherals(store.families))
  }

  // ---- writing -------------------------------------------------------------------------

  method WriteHeader(writer: Sink, header: string) returns (failed: bool)
    modifies writer
    ensures Took(old(writer.output), Terminated(header), writer.output, failed)
  {
    var text := header;
    if header != "" && header != "\n" {
      text := text + "\n";
    }
    failed := writer.Write(text);
  }

  /** `range store.metrics`: the keys in some order. */
  method Enumerate(keys: set<Uid>) returns (order: seq<Uid>)
    ensures multiset(order) == multiset(keys)
  {
    order := [];
    var rest := keys;
    while rest != {}
      invariant rest <= keys && multiset(order) + multiset(rest) == multiset(keys)
      decreases rest
    {
      var u :| u in rest;
      order, rest := order + [u], rest - {u};
    }
  }

  lemma TookNothing(before: string)
    ensures Took(before, "", before, false)
  {
  }

  lemma OneMoreSlot(metrics: map<Uid, seq<string>>, order: seq<Uid>, i: nat, j: nat)
    requires j < |order|
    ensures Concat(Slots(metrics, order[..j + 1], i))
              == Concat(Slots(metrics, order[..j], i)) + Slot(metrics, order[j], i)
  {
    assert Slots(metrics, order[..j + 1], i) == Slots(metrics, order[..j], i) + [Slot(metrics, order[j], i)];
    ConcatAppend(Slots(metrics, order[..j], i), [Slot(metrics, order[j], i)]);
    assert Concat([Slot(metrics, order[j], i)]) == Slot(metrics, order[j], i);
  }

  lemma RestOfSlots(metrics: map<Uid, seq<string>>, order: seq<Uid>, i: nat, j: nat)
    requires j <= |order|
    ensures Concat(Slots(metrics, order, i))
              == Concat(Slots(metrics, order[..j], i)) + Concat(Slots(metrics, order[j..], i))
  {
    assert Slots(metrics, order, i) == Slots(metrics, order[..j], i) + Slots(metrics, order[j..], i);
    ConcatAppend(Slots(metrics, order[..j], i), Slots(metrics, order[j..], i));
  }

  /** The loop over the objects under one header. */
  method WriteSlots(writer: Sink, metrics: map<Uid, seq<string>>, i: nat, order: seq<Uid>) returns (failed: bool)
    requires forall j | 0 <= j < |order| :: order[j] in metrics
    modifies writer
    ensures Took(old(writer.output), Concat(Slots(metrics, order, i)), writer.output, failed)
  {
    hide Took, Concat;
    ghost var before := writer.output;
    TookNothing(before);
    EmptyConcat();
    assert Slots(metrics, order[..0], i) == [];
    for j := 0 to |order|
      invariant Took(before, Concat(Slots(metrics, order[..j], i)), writer.output, false)
    {
      OneMoreSlot(metrics, order, i, j);
      ghost var middle := writer.output;
      if i >= |metrics[order[j]]| {
        assert Slot(metrics, order[j], i) == "";
        assert Concat(Slots(metrics, order[..j], i)) + "" == Concat(Slots(metrics, order[..j], i));
        continue;
      }
      failed := writer.Write(metrics[order[j]][i]);
      TookBoth(before, Concat(Slots(metrics, order[..j], i)), middle, metrics[order[j]][i], writer.output, failed);
      if failed {
        RestOfSlots(metrics, order, i, j + 1);
        TookFirst(before, Concat(Slots(metrics, order[..j + 1], i)), writer.output,
            Concat(Slots(metrics, order[j + 1..], i)));
        return;
      }
    }
    assert order[..|order|] == order;
    failed := false;
  }

  lemma EmptyConcat()
    ensures Concat([]) == ""
  {
  }

  /** One iteration over `store.headers`. */
  method WriteSection(writer: Sink, store: StoreType, i: nat) returns (failed: bool, ghost order: seq<Uid>)
    requires i < |store.headers|
    modifies writer
    ensures multiset(order) == multiset(store.metrics.Keys)
    ensures Took(old(writer.output), Section(FrameOf(store), store.metrics, i, order), writer.output, failed)
  {
    hide Took, Concat, Terminated, PeripheralHeader;
    ghost var before := writer.output;
    var uids := Enumerate(store.metrics.Keys);
    order := uids;
    ghost var header, texts, after := Terminated(store.headers[i]), Concat(Slots(store.metrics, order, i)),
        After(FrameOf(store), i);
    failed := WriteHeader(writer, store.headers[i]);
    if failed {
      TookFirst(before, header, writer.output, texts);
      TookFirst(before, header + texts, writer.output, after);
      return;
    }
    forall j | 0 <= j < |order| ensures order[j] in store.metrics { assert order[j] in multiset(order); }
    ghost var middle := writer.output;
    failed := WriteSlots(writer, store.metrics, i, uids);
    TookBoth(before, header, middle, texts, writer.output, failed);
    if failed {
      TookFirst(before, header + texts, writer.output, after);
      return;
    }
    middle := writer.output;
    if i < |store.families| {
      var peripheral := PeripheralHeader(store.families[i].name, store.families[i].createdAt);
      if peripheral != "" {
        failed := WriteHeader(writer, peripheral);
        TookBoth(before, header + texts, middle, after, writer.output, failed);
        return;
      }
    }
    assert header + texts + "" == header + texts;
  }

  lemma SomeOrder(metrics: map<Uid, seq<string>>) returns (order: seq<Uid>)
    ensures multiset(order) == multiset(metrics.Keys)
  {
    order := SortedNames(metrics.Keys);
  }

  /** Any start of a scrape can be completed. */
  lemma {:induction false} Completed(frame: Frame, metrics: map<Uid, seq<string>>, orders: seq<seq<Uid>>, n: nat)
      returns (more: seq<seq<Uid>>, rest: string)
    requires |orders| == n <= |frame.headers| && Orders(metrics, orders)
    ensures |more| == |frame.headers| && Orders(metrics, more)
    ensures Sections(frame, metrics, more, |frame.headers|) == Sections(frame, metrics, orders, n) + rest
    decreases |frame.headers| - n
  {
    hide Section;
    if n == |frame.headers| {
      more, rest := orders, "";
      assert Sections(frame, metrics, orders, n) + "" == Sections(frame, metrics, orders, n);
    } else {
      var order := SomeOrder(metrics);
      more, rest := Completed(frame, metrics, orders + [order], n + 1);
      OneMoreSection(frame, metrics, orders, order, n);
      rest := Section(frame, metrics, n, order) + rest;
    }
  }

  lemma OneMoreSection(frame: Frame, metrics: map<Uid, seq<string>>, orders: seq<seq<Uid>>, order: seq<Uid>, n: nat)
    requires |orders| == n < |frame.headers|
    ensures Sections(frame, metrics, orders + [order], n + 1)
              == Sections(frame, metrics, orders, n) + Section(frame, metrics, n, order)
  {
    hide Section;
    SectionsPrefix(frame, metrics, orders, order, n);
  }

  lemma {:induction false} SectionsPrefix(frame: Frame, metrics: map<Uid, seq<string>>, orders: seq<seq<Uid>>,
                                          order: seq<Uid>, n: nat)
    requires n <= |orders| && n <= |frame.headers|
    ensures Sections(frame, metrics, orders + [order], n) == Sections(frame, metrics, orders, n)
  {
    hide Section;
    if n > 0 {
      SectionsPrefix(frame, metrics, orders, order, n - 1);
    }
  }

  /** Some complete scrape of the store, or the beginning of one. */
  method WriteFromStore(writer: Sink, store: StoreType) returns (failed: bool, ghost text: string)
    modifies writer
    ensures IsScrape(FrameOf(store), store.metrics, text)
    ensures Took(old(writer.output), text, writer.output, failed)
  {
    hide Took, Section, FrameOf;
    ghost var before, frame := writer.output, FrameOf(store);
    assert frame.headers == store.headers by { HeadersOf(store); }
    ghost var orders: seq<seq<Uid>> := [];
    TookNothing(before);
    failed := false;
    for i := 0 to |store.headers|
      invariant |orders| == i && Orders(store.metrics, orders)
      invariant Took(before, Sections(frame, store.metrics, orders, i), writer.output, false) && !failed
    {
      ghost var middle, done := writer.output, Sections(frame, store.metrics, orders, i);
      ghost var order;
      failed, order := WriteSection(writer, store, i);
      OneMoreSection(frame, store.metrics, orders, order, i);
      TookBoth(before, done, middle, Section(frame, store.metrics, i, order), writer.output, failed);
      orders := orders + [order];
      if failed {
        ghost var all, rest := Completed(frame, store.metrics, orders, i + 1);
        text := Sections(frame, store.metrics, all, |store.headers|);
        TookFirst(before, Sections(frame, store.metrics, orders, i + 1), writer.output, rest);
        return;
      }
    }
    text := Sections(frame, store.metrics, orders, |store.headers|);
  }

  lemma HeadersOf(store: StoreType)
    ensures FrameOf(store).headers == store.headers
  {
  }

  class MetricsWriter {
    const stores: seq<StoreType>

    constructor (stores: seq<StoreType>)
      ensures this.stores == stores
    {
      this.stores := stores;
    }

    /** A complete scrape of every store in order, or, when the writer fails, the
        beginning of such a text. */
    method WriteStores(writer: Sink) returns (failed: bool, ghost texts: seq<string>)
      modifies writer
      ensures |texts| == |stores|
      ensures forall i | 0 <= i < |stores| :: IsScrape(FrameOf(stores[i]), stores[i].metrics, texts[i])
      ensures Took(old(writer.output), Concat(texts), writer.output, failed)
    {
      hide Took, IsScrape, Concat;
      ghost var before := writer.output;
      texts, failed := [], false;
      TookNothing(before);
      EmptyConcat();
      for i := 0 to |stores|
        invariant |texts| == i && !failed
        invariant forall j | 0 <= j < i :: IsScrape(FrameOf(stores[j]), stores[j].metrics, texts[j])
        invariant Took(before, Concat(texts), writer.output, false)
      {
        ghost var text, middle := "", writer.output;
        failed, text := WriteFromStore(writer, stores[i]);
        TookBoth(before, Concat(texts), middle, text, writer.output, failed);
        OneMoreText(texts, text);
        texts := texts + [text];
        if failed {
          ghost var rest := SomeScrapes(stores, i + 1);
          TookFirst(before, Concat(texts), writer.output, Concat(rest));
          ConcatAppend(texts, rest);
          texts := texts + rest;
          return;
        }
      }
    }
  }

  lemma OneMoreText(texts: seq<string>, text: string)
    ensures Concat(texts + [text]) == Concat(texts) + text
  {
    ConcatAppend(texts, [text]);
    assert Concat([text]) == text;
  }

  lemma {:induction false} SomeScrapes(stores: seq<StoreType>, i: nat) returns (texts: seq<string>)
    requires i <= |stores|
    ensures |texts| == |stores| - i
    ensures forall j | i <= j < |stores| :: IsScrape(FrameOf(stores[j]), stores[j].metrics, texts[j - i])
    decreases |stores| - i
  {
    hide IsScrape;
    texts := [];
    if i < |stores| {
      texts := SomeScrapes(stores, i + 1);
      var text := SomeScrape(FrameOf(stores[i]), stores[i].metrics);
      texts := [text] + texts;
    }
  }

  lemma SomeScrape(frame: Frame, metrics: map<Uid, seq<string>>) returns (text: string)
    ensures IsScrape(frame, metrics, text)
  {
    hide Section;
    var orders, rest := Completed(frame, metrics, [], 0);
    text := Sections(frame, metrics, orders, |frame.headers|);
  }
}
