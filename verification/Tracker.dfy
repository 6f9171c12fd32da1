/** The cardinality tracker of one store (internal/cardinality.go): running
    totals per family and per store, and the cutoff flags. */
module Tracker {
  import opened Basics
  import opened Float

  type Uid = string
  type Counts = map<string, int>

  datatype Level = FamilyLevel | StoreLevel | ResourceLevel | GlobalLevel

  datatype Violation = Violation(level: Level, name: string, current: int, threshold: int, severity: Severity)

  datatype Limits = Limits(store: int, family: map<string, int>, warn: real)

  /** What a tracker means: the counts last written for each live object, the
      families ever written, and the families that are cut off. The running
      totals are not part of it, they are recomputed. */
  datatype State = State(objects: map<Uid, Counts>, known: set<string>, cut: set<string>, limits: Limits)

  // ---- recomputed totals ----------------------------------------------------

  function CountOf(c: Counts, f: string): int {
    if f in c then c[f] else 0
  }

  ghost function FamilyColumn(objects: map<Uid, Counts>, f: string): map<Uid, int> {
    map u | u in objects :: CountOf(objects[u], f)
  }

  ghost function FamilySum(objects: map<Uid, Counts>, f: string): int {
    Sum(FamilyColumn(objects, f))
  }

  ghost function TotalColumn(objects: map<Uid, Counts>): map<Uid, int> {
    map u | u in objects :: Sum(objects[u])
  }

  ghost function TotalSum(objects: map<Uid, Counts>): int {
    Sum(TotalColumn(objects))
  }

  ghost function FamilyCount(st: State, f: string): int {
    Wrap64(FamilySum(st.objects, f))
  }

  ghost function StoreCount(st: State): int {
    Wrap64(TotalSum(st.objects))
  }

  ghost function FamilyCounts(st: State): map<string, int> {
    map f | f in st.known :: FamilyCount(st, f)
  }

  lemma FamilySumRemove(objects: map<Uid, Counts>, u: Uid, f: string)
    ensures FamilySum(objects - {u}, f) == FamilySum(objects, f) - (if u in objects then CountOf(objects[u], f) else 0)
  {
    assert FamilyColumn(objects - {u}, f) == FamilyColumn(objects, f) - {u};
    if u in objects {
      SumRemove(FamilyColumn(objects, f), u);
    } else {
      assert objects - {u} == objects;
    }
  }

  lemma FamilySumInsert(objects: map<Uid, Counts>, u: Uid, c: Counts, f: string)
    ensures FamilySum(objects[u := c], f) == FamilySum(objects - {u}, f) + CountOf(c, f)
  {
    assert objects[u := c] - {u} == objects - {u};
    FamilySumRemove(objects[u := c], u, f);
  }

  lemma TotalSumRemove(objects: map<Uid, Counts>, u: Uid)
    ensures TotalSum(objects - {u}) == TotalSum(objects) - (if u in objects then Sum(objects[u]) else 0)
  {
    assert TotalColumn(objects - {u}) == TotalColumn(objects) - {u};
    if u in objects {
      SumRemove(TotalColumn(objects), u);
    } else {
      assert objects - {u} == objects;
    }
  }

  lemma TotalSumInsert(objects: map<Uid, Counts>, u: Uid, c: Counts)
    ensures TotalSum(objects[u := c]) == TotalSum(objects - {u}) + Sum(c)
  {
    assert objects[u := c] - {u} == objects - {u};
    TotalSumRemove(objects[u := c], u);
  }

  lemma {:induction false} FamilySumUnknown(objects: map<Uid, Counts>, f: string)
    requires forall u | u in objects :: f !in objects[u]
    ensures FamilySum(objects, f) == 0
    decreases |objects|
  {
    if objects == map[] {
      assert FamilyColumn(objects, f) == map[];
    } else {
      var u :| u in objects;
      FamilySumRemove(objects, u, f);
      FamilySumUnknown(objects - {u}, f);
    }
  }

  // ---- the threshold check ----------------------------------------------------

  predicate HasOwnLimit(l: Limits, f: string) {
    f in l.family && l.family[f] > 0
  }

  ghost predicate StoreExceeded(st: State) {
    st.limits.store > 0 && Judge(StoreCount(st), st.limits.store, st.limits.warn) == Cutoff
  }

  ghost predicate FamilyExceeded(st: State, f: string) {
    HasOwnLimit(st.limits, f) && Judge(FamilyCount(st, f), st.limits.family[f], st.limits.warn) == Cutoff
  }

  /** Which families are cut off after a check. A family without its own limit
      keeps its flag: nothing in a check ever clears it. */
  ghost predicate CutAfterCheck(st: State, f: string) {
    if f !in st.known then f in st.cut
    else StoreExceeded(st) || (if HasOwnLimit(st.limits, f) then FamilyExceeded(st, f) else f in st.cut)
  }

  ghost function Checked(st: State): State {
    st.(cut := set f | f in st.known + st.cut && CutAfterCheck(st, f))
  }

  function Verdict(level: Level, name: string, count: int, limit: int, warn: real): seq<Violation>
    requires 0 < limit
  {
    var s := Judge(count, limit, warn);
    if s == Fine then [] else [Violation(level, name, count, limit, s)]
  }

  ghost function FamilyVerdict(st: State, f: string): seq<Violation> {
    if HasOwnLimit(st.limits, f)
    then Verdict(FamilyLevel, f, FamilyCount(st, f), st.limits.family[f], st.limits.warn)
    else []
  }

  /** One entry per known family at or over its warning level. */
  ghost function FamilyViolations(st: State, fs: set<string>): set<Violation> {
    set f, v | f in fs && v in FamilyVerdict(st, f) :: v
  }

  ghost function StoreViolations(st: State): seq<Violation> {
    if st.limits.store > 0
    then Verdict(StoreLevel, "store", StoreCount(st), st.limits.store, st.limits.warn)
    else []
  }

  /** Map iteration order is arbitrary, so violations are known up to order. */
  ghost function Violations(st: State): multiset<Violation> {
    multiset(FamilyViolations(st, st.known)) + multiset(StoreViolations(st))
  }

  /** Checking twice changes nothing more and reports the same violations. */
  lemma CheckIdempotent(st: State)
    ensures Checked(Checked(st)) == Checked(st)
    ensures Violations(Checked(st)) == Violations(st)
  {
    var c := Checked(st);
    forall f ensures CutAfterCheck(c, f) == (f in c.cut) {
    }
    assert Checked(c).cut == c.cut;
    forall f ensures FamilyVerdict(c, f) == FamilyVerdict(st, f) {
    }
    assert FamilyViolations(c, c.known) == FamilyViolations(st, st.known);
  }

  function Signed(out: bool, x: int): int {
    if out then -x else x
  }

  /** One running total after a set of counts went out or in. */
  function Shifted(totals: map<string, int>, counts: Counts, out: bool, f: string): int
    requires f in totals || f in counts
  {
    if f in counts then Wrap64(CountOf(totals, f) + Signed(out, counts[f])) else totals[f]
  }

  /** The totals of a state fit in an int64, so the counters hold them. */
  ghost predicate Fits(st: State) {
    && TotalSum(st.objects) < TWO_63
    && forall f :: FamilySum(st.objects, f) < TWO_63
  }

  ghost predicate Natural(objects: map<Uid, Counts>) {
    forall u, f | u in objects && f in objects[u] :: 0 <= objects[u][f]
  }

  lemma NaturalSums(objects: map<Uid, Counts>, f: string)
    requires Natural(objects)
    ensures 0 <= FamilySum(objects, f) && 0 <= TotalSum(objects)
  {
    hide Sum;
    EmptySum();
    SumMono(map[], FamilyColumn(objects, f));
    forall u | u in objects ensures 0 <= Sum(objects[u]) { SumMono(map[], objects[u]); }
    SumMono(map[], TotalColumn(objects));
  }

  ghost predicate ShiftedTo(totals: map<string, int>, total: int, counts: Counts, out: bool,
                            totals': map<string, int>, total': int)
  {
    && totals'.Keys == totals.Keys + counts.Keys
    && (forall f | f in totals' :: totals'[f] == Shifted(totals, counts, out, f))
    && total' == Wrap64(total + Signed(out, Sum(counts)))
  }

  // ---- running totals against recomputed ones ----------------------------------

  /** The running totals are the recomputed ones, modulo 2^64. */
  ghost predicate Recounted(totals: map<string, int>, total: int, objects: map<Uid, Counts>) {
    && (forall f | f in totals :: totals[f] == Wrap64(FamilySum(objects, f)))
    && total == Wrap64(TotalSum(objects))
  }

  /** Every family with a recorded count has a running total. */
  ghost predicate Closed(objects: map<Uid, Counts>, known: set<string>) {
    forall u, f | u in objects && f in objects[u] :: f in known
  }

  lemma RecountedRange(totals: map<string, int>, total: int, objects: map<Uid, Counts>)
    requires Recounted(totals, total, objects)
    ensures Wrap64(total) == total
  {
  }

  lemma TakenOut(totals: map<string, int>, total: int, objects: map<Uid, Counts>, u: Uid,
                 totals': map<string, int>, total': int)
    requires Recounted(totals, total, objects) && Closed(objects, totals.Keys)
    requires if u in objects then ShiftedTo(totals, total, objects[u], true, totals', total')
             else totals' == totals && total' == total
    ensures totals'.Keys == totals.Keys
    ensures Recounted(totals', total', objects - {u}) && Closed(objects - {u}, totals'.Keys)
  {
    hide Wrap64, FamilySum, TotalSum, Sum;
    TotalSumRemove(objects, u);
    if u in objects {
      WrapAdd(TotalSum(objects), -Sum(objects[u]));
    }
    forall f | f in totals ensures totals'[f] == Wrap64(FamilySum(objects - {u}, f)) {
      FamilySumRemove(objects, u, f);
      if u in objects && f in objects[u] {
        WrapAdd(FamilySum(objects, f), -objects[u][f]);
      }
    }
  }

  lemma PutIn(totals: map<string, int>, total: int, objects: map<Uid, Counts>, u: Uid, c: Counts,
              totals': map<string, int>, total': int)
    requires Recounted(totals, total, objects - {u}) && Closed(objects - {u}, totals.Keys)
    requires ShiftedTo(totals, total, c, false, totals', total')
    ensures totals'.Keys == totals.Keys + c.Keys
    ensures Recounted(totals', total', objects[u := c]) && Closed(objects[u := c], totals'.Keys)
  {
    hide Wrap64, FamilySum, TotalSum, Sum;
    var bare := objects - {u};
    TotalSumInsert(objects, u, c);
    WrapAdd(TotalSum(bare), Sum(c));
    var after := objects[u := c];
    forall v, f | v in after && f in after[v] ensures f in totals' {
      assert v == u || (v in bare && bare[v] == objects[v]);
    }
    forall f | f in totals' ensures totals'[f] == Wrap64(FamilySum(objects[u := c], f)) {
      FamilySumInsert(objects, u, c, f);
      if f !in totals {
        FamilySumUnknown(bare, f);
      } else if f in c {
        WrapAdd(FamilySum(bare, f), c[f]);
      }
    }
  }

  // ---- part of a shift ------------------------------------------------------------

  /** The counts of the families in done. */
  function Part(counts: Counts, done: set<string>): Counts {
    map f | f in counts && f in done :: counts[f]
  }

  lemma NothingShifted(totals: map<string, int>, total: int, counts: Counts, out: bool)
    requires Wrap64(total) == total
    ensures ShiftedTo(totals, total, Part(counts, {}), out, totals, total)
  {
    assert Part(counts, {}) == map[];
    EmptySum();
  }

  /** One more entry, in the store total and in the family's. */
  lemma OneShifted(before: map<string, int>, total: int, counts: Counts, out: bool, done: set<string>, f: string,
                   totals: map<string, int>, total': int)
    requires f in counts && f !in done && ShiftedTo(before, total, Part(counts, done), out, totals, total')
    ensures ShiftedTo(before, total, Part(counts, done + {f}), out,
                      totals[f := Wrap64(CountOf(totals, f) + Signed(out, counts[f]))],
                          Wrap64(total' + Signed(out, counts[f])))
  {
    hide Wrap64, Sum;
    var part := Part(counts, done);
    assert Part(counts, done + {f}) == part[f := counts[f]] && part - {f} == part;
    SumInsert(part, f, counts[f]);
    WrapAdd(total + Signed(out, Sum(part)), Signed(out, counts[f]));
  }

  lemma AllShifted(counts: Counts)
    ensures Part(counts, counts.Keys) == counts
  {
  }

  function Larger(a: int, b: int): int {
    if a > b then a else b
  }

  /** With part of the counts taken out of, or put into, the totals of these
      objects, every total lies between 0 and the larger of what it is before the
      whole operation and after. */
  ghost predicate StaysWithin(objects: map<Uid, Counts>, counts: Counts, out: bool,
                              before: map<Uid, Counts>, after: map<Uid, Counts>) {
    forall done :: done <= counts.Keys ==> PartWithin(objects, Part(counts, done), out, before, after)
  }

  ghost predicate PartWithin(objects: map<Uid, Counts>, part: Counts, out: bool,
                             before: map<Uid, Counts>, after: map<Uid, Counts>) {
    && 0 <= TotalSum(objects) + Signed(out, Sum(part)) <= Larger(TotalSum(before), TotalSum(after))
    && forall f :: 0 <= FamilySum(objects, f) + Signed(out, CountOf(part, f))
        <= Larger(FamilySum(before, f), FamilySum(after, f))
  }

  /** So if the totals fit an int64 before and after, no counter wraps on the way. */
  lemma NeverWraps(objects: map<Uid, Counts>, counts: Counts, out: bool, before: State, after: State, done: set<string>)
    requires StaysWithin(objects, counts, out, before.objects, after.objects) && Fits(before) && Fits(after)
    requires done <= counts.Keys
    ensures var x := TotalSum(objects) + Signed(out, Sum(Part(counts, done))); Wrap64(x) == x
    ensures forall f :: var x := FamilySum(objects, f) + Signed(out, CountOf(Part(counts, done), f)); Wrap64(x) == x
  {
    hide Sum, FamilySum, TotalSum;
    assert PartWithin(objects, Part(counts, done), out, before.objects, after.objects);
  }

  lemma PartNatural(counts: Counts, done: set<string>)
    requires forall f | f in counts :: 0 <= counts[f]
    ensures 0 <= Sum(Part(counts, done)) <= Sum(counts)
    ensures forall f :: 0 <= CountOf(Part(counts, done), f) <= CountOf(counts, f)
  {
    hide Sum;
    EmptySum();
    SumMono(map[], Part(counts, done));
    SumMono(Part(counts, done), counts);
  }

  /** Taking an object's counts out, on the way to any later state. */
  lemma OutStaysWithin(objects: map<Uid, Counts>, u: Uid, after: map<Uid, Counts>)
    requires Natural(objects) && u in objects
    ensures StaysWithin(objects, objects[u], true, objects, after)
  {
    hide Sum, FamilySum, TotalSum;
    var c := objects[u];
    forall done | done <= c.Keys ensures PartWithin(objects, Part(c, done), true, objects, after) {
      PartNatural(c, done);
      TotalSumRemove(objects, u);
      NaturalSums(objects - {u}, "");
      forall f ensures 0 <= FamilySum(objects, f) - CountOf(Part(c, done), f) <= FamilySum(objects, f) {
        FamilySumRemove(objects, u, f);
        NaturalSums(objects - {u}, f);
      }
    }
  }

  /** Putting counts in, from any earlier state. */
  lemma InStaysWithin(objects: map<Uid, Counts>, u: Uid, c: Counts, before: map<Uid, Counts>)
    requires Natural(objects[u := c])
    ensures StaysWithin(objects - {u}, c, false, before, objects[u := c])
  {
    hide Sum, FamilySum, TotalSum;
    var bare, after := objects - {u}, objects[u := c];
    assert forall f | f in c :: 0 <= c[f] by { assert after[u] == c; }
    assert Natural(bare) by { assert forall v | v in bare :: v in after && after[v] == bare[v]; }
    forall done | done <= c.Keys ensures PartWithin(bare, Part(c, done), false, before, after) {
      PartNatural(c, done);
      TotalSumInsert(objects, u, c);
      NaturalSums(bare, "");
      forall f ensures 0 <= FamilySum(bare, f) + CountOf(Part(c, done), f) <= FamilySum(after, f) {
        FamilySumInsert(objects, u, c, f);
        NaturalSums(bare, f);
      }
    }
  }

  predicate IsCut(m: map<string, bool>, f: string) {
    f in m && m[f]
  }

  function CutSet(m: map<string, bool>): set<string> {
    set f | f in m && IsCut(m, f)
  }

  /** The flags while a check has visited the families in done. */
  ghost predicate CutDuringCheck(st: State, done: set<string>, f: string) {
    if f in done && HasOwnLimit(st.limits, f) then FamilyExceeded(st, f) else f in st.cut
  }

  lemma RunningTotals(totals: map<string, int>, total: int, objects: map<Uid, Counts>, st: State)
    requires Recounted(totals, total, objects) && st.objects == objects
    ensures total == StoreCount(st) && forall f | f in totals :: totals[f] == FamilyCount(st, f)
  {
  }

  lemma CheckedIs(st: State, m: map<string, bool>)
    requires forall f :: IsCut(m, f) ==
                         (if StoreExceeded(st) && f in st.known then true else CutDuringCheck(st, st.known, f))
    ensures CutSet(m) == Checked(st).cut
  {
  }

  lemma NoViolations(st: State)
    ensures FamilyViolations(st, {}) == {}
  {
  }

  lemma FamilyViolationsStep(st: State, fs: set<string>, f: string)
    requires f !in fs
    ensures multiset(FamilyViolations(st, fs + {f}))
              == multiset(FamilyViolations(st, fs)) + multiset(FamilyVerdict(st, f))
  {
    hide Judge, FamilyCount;
    var one := FamilyVerdict(st, f);
    var old_, new_ := FamilyViolations(st, fs), FamilyViolations(st, fs + {f});
    assert forall g, v | v in FamilyVerdict(st, g) :: v.name == g;
    if one == [] {
      assert new_ == old_;
    } else {
      var v := one[0];
      assert one == [v] && v in one;
      assert v !in old_;
      forall w ensures w in new_ <==> w in old_ || w == v {
        if g :| g in fs + {f} && w in FamilyVerdict(st, g) { assert g == f ==> w == v; }
      }
      assert new_ == old_ + {v};
    }
  }

  // ---- the tracker object -----------------------------------------------------

  class CardinalityTracker {
    var perFamily: map<string, int>
    var perObject: map<Uid, Counts>
    var storeTotal: int
    var cutoffFamilies: map<string, bool>
    var familyThreshold: map<string, int>
    const storeThreshold: int
    const warningRatio: real

    ghost function Abs(): State
      reads this
    {
      State(perObject, perFamily.Keys, CutSet(cutoffFamilies), Limits(storeThreshold, familyThreshold, warningRatio))
    }

    /** The running totals are the recomputed ones, modulo 2^64. */
    ghost predicate Valid()
      reads this
    {
      && Recounted(perFamily, storeTotal, perObject)
      && Closed(perObject, perFamily.Keys)
    }

    constructor (storeThreshold: int, warningRatio: real)
      ensures Valid()
      ensures Abs() == State(map[], {}, {}, Limits(storeThreshold, map[], warningRatio))
    {
      perFamily, perObject, storeTotal := map[], map[], 0;
      cutoffFamilies, familyThreshold := map[], map[];
      this.storeThreshold, this.warningRatio := storeThreshold, warningRatio;
      new;
      assert TotalColumn(perObject) == map[];
    }

    method SetFamilyThreshold(family: string, threshold: int)
      requires Valid()
      modifies `familyThreshold
      ensures Valid()
      ensures Abs() == old(Abs()).(limits := old(Abs()).limits.(family := old(familyThreshold)[family := threshold]))
    {
      familyThreshold := familyThreshold[family := threshold];
    }

    /** The two loops of the updates: `ct.perFamily[family] -= count` for every
        entry when taking counts out, `+= count` when putting them in. After any
        number of entries the totals are those with this part shifted. */
    method Shift(counts: Counts, out: bool)
      requires Wrap64(storeTotal) == storeTotal
      modifies `perFamily, `storeTotal
      ensures ShiftedTo(old(perFamily), old(storeTotal), counts, out, perFamily, storeTotal)
    {
      hide Wrap64, ShiftedTo, CountOf, Signed, Part;
      ghost var before, total := perFamily, storeTotal;
      NothingShifted(before, total, counts, out);
      var rest := counts.Keys;
      assert counts.Keys - rest == {};
      while rest != {}
        invariant rest <= counts.Keys
        invariant ShiftedTo(before, total, Part(counts, counts.Keys - rest), out, perFamily, storeTotal)
        decreases rest
      {
        var f :| f in rest;
        OneShifted(before, total, counts, out, counts.Keys - rest, f, perFamily, storeTotal);
        assert counts.Keys - rest + {f} == counts.Keys - (rest - {f});
        perFamily := perFamily[f := Wrap64(CountOf(perFamily, f) + Signed(out, counts[f]))];
        storeTotal := Wrap64(storeTotal + Signed(out, counts[f]));
        rest := rest - {f};
      }
      assert counts.Keys - rest == counts.Keys;
      AllShifted(counts);
    }

    /** With natural counts no total leaves the range between 0 and the larger of
        its old and new value at any point of the two loops. */
    method Update(uid: Uid, counts: Counts)
      requires Valid()
      modifies `perFamily, `perObject, `storeTotal
      ensures Valid()
      ensures Abs() == old(Abs()).(objects := old(perObject)[uid := counts], known := old(perFamily).Keys + counts.Keys)
      ensures Natural(old(perObject)) && Natural(perObject) ==>
                && (uid in old(perObject)
                    ==> StaysWithin(old(perObject), old(perObject)[uid], true, old(perObject), perObject))
                && StaysWithin(old(perObject) - {uid}, counts, false, old(perObject), perObject)
    {
      hide Recounted, Closed, ShiftedTo, Natural, StaysWithin;
      ghost var before, bare := perObject, perObject - {uid};
      RecountedRange(perFamily, storeTotal, perObject);
      if uid in perObject {
        Shift(perObject[uid], true);
      }
      TakenOut(old(perFamily), old(storeTotal), before, uid, perFamily, storeTotal);
      RecountedRange(perFamily, storeTotal, bare);
      label Taken:
      perObject := perObject[uid := counts];
      Shift(counts, false);
      PutIn(old@Taken(perFamily), old@Taken(storeTotal), before, uid, counts, perFamily, storeTotal);
      if Natural(before) && Natural(perObject) {
        InStaysWithin(before, uid, counts, before);
        if uid in before {
          OutStaysWithin(before, uid, perObject);
        }
      }
    }

    method Delete(uid: Uid)
      requires Valid()
      modifies `perFamily, `perObject, `storeTotal
      ensures Valid()
      ensures Abs() == old(Abs()).(objects := old(perObject) - {uid})
      ensures Natural(old(perObject)) && uid in old(perObject) ==>
                StaysWithin(old(perObject), old(perObject)[uid], true, old(perObject), perObject)
    {
      hide Recounted, Closed, ShiftedTo, Natural, StaysWithin;
      ghost var before := perObject;
      RecountedRange(perFamily, storeTotal, perObject);
      if uid in perObject {
        Shift(perObject[uid], true);
        perObject := perObject - {uid};
      }
      TakenOut(old(perFamily), old(storeTotal), before, uid, perFamily, storeTotal);
      assert uid !in before ==> before - {uid} == before;
      if Natural(before) && uid in before {
        OutStaysWithin(before, uid, perObject);
      }
    }

    method CheckThresholds() returns (violations: seq<Violation>)
      requires Valid()
      modifies `cutoffFamilies
      ensures Valid()
      ensures Abs() == Checked(old(Abs()))
      ensures multiset(violations) == Violations(old(Abs()))
    {
      hide Recounted, Closed, Judge, FamilyCount, StoreCount, FamilyViolations;
      ghost var st := Abs();
      RunningTotals(perFamily, storeTotal, perObject, st);
      violations := CheckFamilies();
      if storeThreshold > 0 {
        violations := violations + Verdict(StoreLevel, "store", storeTotal, storeThreshold, warningRatio);
        if Judge(storeTotal, storeThreshold, warningRatio) == Cutoff {
          CutAll();
        }
      }
      CheckedIs(st, cutoffFamilies);
    }

    /** The loop over `ct.perFamily`, in any order. */
    method CheckFamilies() returns (violations: seq<Violation>)
      requires Valid()
      modifies `cutoffFamilies
      ensures multiset(violations) == multiset(FamilyViolations(old(Abs()), perFamily.Keys))
      ensures forall f :: IsCut(cutoffFamilies, f) == CutDuringCheck(old(Abs()), perFamily.Keys, f)
    {
      hide Recounted, Judge, FamilyCount, FamilyViolations, Verdict;
      ghost var st := Abs();
      ghost var known := perFamily.Keys;
      RunningTotals(perFamily, storeTotal, perObject, st);
      violations := [];
      var rest := perFamily.Keys;
      NoViolations(st);
      assert known - rest == {};
      while rest != {}
        invariant rest <= known
        invariant multiset(violations) == multiset(FamilyViolations(st, known - rest))
        invariant forall f :: IsCut(cutoffFamilies, f) == CutDuringCheck(st, known - rest, f)
        decreases rest
      {
        var f :| f in rest;
        FamilyViolationsStep(st, known - rest, f);
        assert known - rest + {f} == known - (rest - {f});
        var more := CheckFamily(f);
        violations := violations + more;
        rest := rest - {f};
      }
      assert known - rest == known;
    }

    /** The body of the loop over `ct.perFamily`. */
    method CheckFamily(f: string) returns (more: seq<Violation>)
      requires f in perFamily
      modifies `cutoffFamilies
      ensures more == if HasOwnLimit(Abs().limits, f)
                      then Verdict(FamilyLevel, f, perFamily[f], familyThreshold[f], warningRatio) else []
      ensures forall g :: IsCut(cutoffFamilies, g) ==
                          if g == f && HasOwnLimit(Abs().limits, f)
                          then Judge(perFamily[f], familyThreshold[f], warningRatio) == Cutoff
                          else IsCut(old(cutoffFamilies), g)
    {
      hide Judge;
      if f !in familyThreshold || familyThreshold[f] <= 0 {
        return [];
      }
      match Judge(perFamily[f], familyThreshold[f], warningRatio)
      case Cutoff =>
        cutoffFamilies := cutoffFamilies[f := true];
        more := [Violation(FamilyLevel, f, perFamily[f], familyThreshold[f], Cutoff)];
      case Warning =>
        more := [Violation(FamilyLevel, f, perFamily[f], familyThreshold[f], Warning)];
        cutoffFamilies := cutoffFamilies[f := false];
      case Fine =>
        more := [];
        cutoffFamilies := cutoffFamilies[f := false];
    }

    /** `for family := range ct.perFamily { ct.cutoffFamilies[family] = true }` */
    method CutAll()
      modifies `cutoffFamilies
      ensures forall f :: IsCut(cutoffFamilies, f) == (f in perFamily || IsCut(old(cutoffFamilies), f))
    {
      var rest := perFamily.Keys;
      while rest != {}
        invariant rest <= perFamily.Keys
        invariant forall f :: IsCut(cutoffFamilies, f) == (f in perFamily.Keys - rest || IsCut(old(cutoffFamilies), f))
        decreases rest
      {
        var f :| f in rest;
        cutoffFamilies := cutoffFamilies[f := true];
        rest := rest - {f};
      }
    }

    method IsFamilyCutoff(family: string) returns (cutoff: bool)
      ensures cutoff == (family in Abs().cut)
    {
      cutoff := family in cutoffFamilies && cutoffFamilies[family];
    }

    method GetStoreTotal() returns (total: int)
      requires Valid()
      ensures total == StoreCount(Abs())
    {
      total := storeTotal;
    }

    method GetAllFamilyCardinalities() returns (cardinalities: map<string, int>)
      requires Valid()
      ensures cardinalities == FamilyCounts(Abs())
    {
      RunningTotals(perFamily, storeTotal, perObject, Abs());
      hide FamilyCount;
      cardinalities := perFamily;
    }

    method GetCutoffFamilies() returns (families: seq<string>)
      ensures multiset(families) == multiset(Abs().cut)
    {
      families := [];
      var rest := cutoffFamilies.Keys;
      ghost var seen := {};
      while rest != {}
        invariant rest <= cutoffFamilies.Keys
        invariant seen == set f | f in cutoffFamilies.Keys - rest && IsCut(cutoffFamilies, f)
        invariant multiset(families) == multiset(seen)
        decreases rest
      {
        var f :| f in rest;
        if cutoffFamilies[f] {
          families := families + [f];
          seen := seen + {f};
        }
        rest := rest - {f};
      }
      assert seen == Abs().cut;
    }

    method Reset()
      requires Valid()
      modifies `perFamily, `perObject, `storeTotal, `cutoffFamilies
      ensures Valid()
      ensures Abs() == State(map[], {}, {}, old(Abs()).limits)
    {
      perFamily, perObject, storeTotal, cutoffFamilies := map[], map[], 0, map[];
      assert TotalColumn(perObject) == map[];
    }
  }
}
