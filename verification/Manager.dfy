/** Cardinality across all monitors (internal/cardinality_manager.go). */
module Manager {
  import opened Basics
  import opened Float
  import opened Tracker

  datatype Thresholds = Thresholds(global: int, resourceDefault: int, warn: real)

  /** The latest total of every tracked monitor, and the monitors cut off. */
  datatype Global = Global(perResource: map<Uid, int>, cut: set<Uid>, thresholds: Thresholds)

  // ---- what a check decides --------------------------------------------------------

  function Latest(g: Global, uid: Uid): int {
    if uid in g.perResource then g.perResource[uid] else 0
  }

  ghost function GlobalTotal(g: Global): int {
    Wrap64(Sum(g.perResource))
  }

  function Effective(g: Global, resourceThreshold: int): int {
    if resourceThreshold <= 0 then g.thresholds.resourceDefault else resourceThreshold
  }

  ghost predicate GlobalExceeded(g: Global) {
    g.thresholds.global > 0 && Judge(GlobalTotal(g), g.thresholds.global, g.thresholds.warn) == Cutoff
  }

  ghost predicate ResourceExceeded(g: Global, uid: Uid, resourceThreshold: int) {
    Effective(g, resourceThreshold) > 0
        && Judge(Latest(g, uid), Effective(g, resourceThreshold), g.thresholds.warn) == Cutoff
  }

  /** What a check of monitor uid decides about monitor r, if anything. */
  ghost function Decided(g: Global, uid: Uid, resourceThreshold: int, r: Uid): Option<bool> {
    if GlobalExceeded(g) && r in g.perResource then Some(true)
    else if r == uid && Effective(g, resourceThreshold) > 0 then Some(ResourceExceeded(g, uid, resourceThreshold))
    else None
  }

  ghost predicate CutAfter(g: Global, uid: Uid, resourceThreshold: int, r: Uid) {
    match Decided(g, uid, resourceThreshold, r)
    case Some(cut) => cut
    case None => r in g.cut
  }

  ghost function CheckedGlobal(g: Global, uid: Uid, resourceThreshold: int): Global {
    g.(cut := set r | r in g.cut + g.perResource.Keys + {uid} && CutAfter(g, uid, resourceThreshold, r))
  }

  ghost function GlobalViolations(g: Global, uid: Uid, resourceThreshold: int): seq<Violation> {
    (if Effective(g, resourceThreshold) > 0
     then Verdict(ResourceLevel, "resource", Latest(g, uid), Effective(g, resourceThreshold),
         g.thresholds.warn) else [])
    + (if g.thresholds.global > 0
       then Verdict(GlobalLevel, "global", GlobalTotal(g), g.thresholds.global, g.thresholds.warn) else [])
  }

  lemma CheckedGlobalIs(g: Global, uid: Uid, resourceThreshold: int, m: map<Uid, bool>)
    requires forall r :: IsCut(m, r) == CutAfter(g, uid, resourceThreshold, r)
    ensures CutSet(m) == CheckedGlobal(g, uid, resourceThreshold).cut
  {
    hide Judge, Sum;
  }

  // ---- the manager object -------------------------------------------------------------

  class GlobalCardinalityManager {
    var perResource: map<Uid, int>
    var globalTotal: int
    var cutoffResources: map<Uid, bool>
    const globalThreshold: int
    const resourceDefaultThreshold: int
    const warningRatio: real

    ghost predicate Valid()
      reads this
    {
      globalTotal == Wrap64(Sum(perResource))
    }

    ghost function Abs(): Global
      reads this
    {
      Global(perResource, CutSet(cutoffResources), Thresholds(globalThreshold, resourceDefaultThreshold, warningRatio))
    }

    constructor (globalThreshold: int, resourceDefaultThreshold: int, warningRatio: real)
      ensures Valid() && Abs() == Global(map[], {}, Thresholds(globalThreshold, resourceDefaultThreshold, warningRatio))
    {
      perResource, globalTotal, cutoffResources := map[], 0, map[];
      this.globalThreshold, this.resourceDefaultThreshold, this.warningRatio :=
        globalThreshold, resourceDefaultThreshold, warningRatio;
    }

    method UpdateResource(uid: Uid, cardinality: int)
      requires Valid()
      modifies `perResource, `globalTotal
      ensures Valid() && Abs() == old(Abs()).(perResource := old(perResource)[uid := cardinality])
    {
      ghost var total := Sum(perResource);
      SumInsert(perResource, uid, cardinality);
      if uid in perResource {
        WrapAdd(total, -perResource[uid]);
        globalTotal := Wrap64(globalTotal - perResource[uid]);
        total := total - perResource[uid];
      }
      WrapAdd(total, cardinality);
      perResource := perResource[uid := cardinality];
      globalTotal := Wrap64(globalTotal + cardinality);
    }

    method DeleteResource(uid: Uid)
      requires Valid()
      modifies `perResource, `globalTotal, `cutoffResources
      ensures Valid() && Abs() == old(Abs()).(perResource := old(perResource) - {uid}, cut := old(Abs()).cut - {uid})
    {
      if uid in perResource {
        SumRemove(perResource, uid);
        WrapAdd(Sum(perResource), -perResource[uid]);
        globalTotal := Wrap64(globalTotal - perResource[uid]);
        perResource := perResource - {uid};
      }
      assert uid !in old(perResource) ==> old(perResource) - {uid} == old(perResource);
      cutoffResources := cutoffResources - {uid};
    }

    method CheckThresholds(uid: Uid, resourceThreshold: int) returns (violations: seq<Violation>)
      requires Valid()
      modifies `cutoffResources
      ensures Valid() && Abs() == CheckedGlobal(old(Abs()), uid, resourceThreshold)
      ensures violations == GlobalViolations(old(Abs()), uid, resourceThreshold)
    {
      hide Judge, Sum;
      ghost var g := Abs();
      var resourceCardinality := if uid in perResource then perResource[uid] else 0;
      var threshold := if resourceThreshold <= 0 then resourceDefaultThreshold else resourceThreshold;
      violations := [];
      if threshold > 0 {
        match Judge(resourceCardinality, threshold, warningRatio)
        case Cutoff =>
          cutoffResources := cutoffResources[uid := true];
          violations := [Violation(ResourceLevel, "resource", resourceCardinality, threshold, Cutoff)];
        case Warning =>
          violations := [Violation(ResourceLevel, "resource", resourceCardinality, threshold, Warning)];
          cutoffResources := cutoffResources[uid := false];
        case Fine =>
          cutoffResources := cutoffResources[uid := false];
      }
      if globalThreshold > 0 {
        var severity := Judge(globalTotal, globalThreshold, warningRatio);
        if severity == Cutoff {
          CutAllResources();
          violations := violations + [Violation(GlobalLevel, "global", globalTotal, globalThreshold, Cutoff)];
        } else if severity == Warning {
          violations := violations + [Violation(GlobalLevel, "global", globalTotal, globalThreshold, Warning)];
        }
      }
      CheckedGlobalIs(g, uid, resourceThreshold, cutoffResources);
    }

    method CutAllResources()
      modifies `cutoffResources
      ensures forall r :: IsCut(cutoffResources, r) == (r in perResource || IsCut(old(cutoffResources), r))
    {
      var rest := perResource.Keys;
      while rest != {}
        invariant rest <= perResource.Keys
        invariant forall r ::
                    IsCut(cutoffResources, r) == (r in perResource.Keys - rest || IsCut(old(cutoffResources), r))
        decreases rest
      {
        var r :| r in rest;
        cutoffResources := cutoffResources[r := true];
        rest := rest - {r};
      }
    }

    method IsResourceCutoff(uid: Uid) returns (cutoff: bool)
      ensures cutoff == (uid in Abs().cut)
    {
      cutoff := uid in cutoffResources && cutoffResources[uid];
    }
  }

  // ---- histories ---------------------------------------------------------------------------

  datatype ManagerOp = UpdateTo(uid: Uid, total: int) | Remove(uid: Uid) | CheckOf(uid: Uid, limit: int)

  ghost function NextGlobal(g: Global, op: ManagerOp): Global {
    match op
    case UpdateTo(uid, total) => g.(perResource := g.perResource[uid := total])
    case Remove(uid) => g.(perResource := g.perResource - {uid}, cut := g.cut - {uid})
    case CheckOf(uid, limit) => CheckedGlobal(g, uid, limit)
  }

  ghost function AfterOps(t: Thresholds, ops: seq<ManagerOp>): Global {
    if ops == [] then Global(map[], {}, t) else NextGlobal(AfterOps(t, ops[..|ops| - 1]), ops[|ops| - 1])
  }

  /** What operation j says about monitor r's cutoff flag. */
  ghost function Ruling(t: Thresholds, ops: seq<ManagerOp>, j: nat, r: Uid): Option<bool>
    requires j < |ops|
  {
    match ops[j]
    case UpdateTo(_, _) => None
    case Remove(uid) => if uid == r then Some(false) else None
    case CheckOf(uid, limit) => Decided(AfterOps(t, ops[..j]), uid, limit, r)
  }

  /** Operation j cut r off and nothing ruled on r since. */
  ghost predicate LastRulingCuts(t: Thresholds, ops: seq<ManagerOp>, j: nat, r: Uid) {
    && j < |ops| && Ruling(t, ops, j, r) == Some(true)
    && forall k | j < k < |ops| :: Ruling(t, ops, k, r) == None
  }

  lemma RulingKept(t: Thresholds, ops: seq<ManagerOp>, op: ManagerOp, r: Uid)
    ensures forall j: nat | j < |ops| :: Ruling(t, ops + [op], j, r) == Ruling(t, ops, j, r)
  {
    hide Decided, AfterOps;
    forall j: nat | j < |ops| ensures Ruling(t, ops + [op], j, r) == Ruling(t, ops, j, r) {
      assert (ops + [op])[..j] == ops[..j];
    }
  }

  lemma NextRuling(t: Thresholds, ops: seq<ManagerOp>, op: ManagerOp, r: Uid)
    ensures var ruling := Ruling(t, ops + [op], |ops|, r);
            r in AfterOps(t, ops + [op]).cut <==> if ruling.Some? then ruling.value else r in AfterOps(t, ops).cut
  {
    hide Judge;
    assert (ops + [op])[..|ops|] == ops;
  }

  /** After any history a monitor is cut off exactly when the last operation that
      ruled on it cut it off: its own check over its limit, or anybody's check
      with the global total over the global limit while it was tracked. */
  lemma {:induction false} CutByLastRuling(t: Thresholds, ops: seq<ManagerOp>, r: Uid)
    ensures r in AfterOps(t, ops).cut <==> exists j: nat :: LastRulingCuts(t, ops, j, r)
    decreases |ops|
  {
    if ops != [] {
      var n := |ops| - 1;
      var before, op := ops[..n], ops[n];
      assert ops == before + [op];
      CutByLastRuling(t, before, r);
      RulingKept(t, before, op, r);
      NextRuling(t, before, op, r);
      hide Ruling, AfterOps;
      if Ruling(t, ops, n, r) == Some(true) {
        assert LastRulingCuts(t, ops, n, r);
      }
      if j: nat :| LastRulingCuts(t, before, j, r) {
        assert Ruling(t, ops, n, r) == None ==> LastRulingCuts(t, ops, j, r);
      }
      if j: nat :| LastRulingCuts(t, ops, j, r) {
        assert j == n || LastRulingCuts(t, before, j, r);
      }
    }
  }

  /** Operation j gave r this total and nothing replaced or removed it since. */
  predicate LatestUpdate(ops: seq<ManagerOp>, j: nat, r: Uid, total: int) {
    && j < |ops| && ops[j] == UpdateTo(r, total)
    && forall k | j < k < |ops| :: ops[k].CheckOf? || ops[k].uid != r
  }

  /** A monitor is tracked with its latest total, unless it was removed since. */
  lemma {:induction false} TracksLatest(t: Thresholds, ops: seq<ManagerOp>, r: Uid, total: int)
    ensures (r in AfterOps(t, ops).perResource && AfterOps(t, ops).perResource[r] == total)
       <==> exists j: nat :: LatestUpdate(ops, j, r, total)
    decreases |ops|
  {
    if ops != [] {
      hide Decided, Sum;
      var n := |ops| - 1;
      var before := ops[..n];
      TracksLatest(t, before, r, total);
      assert LatestUpdate(ops, n, r, total) <==> ops[n] == UpdateTo(r, total);
      if j: nat :| LatestUpdate(before, j, r, total) {
        assert (ops[n].CheckOf? || ops[n].uid != r) ==> LatestUpdate(ops, j, r, total);
      }
      if j: nat :| LatestUpdate(ops, j, r, total) {
        assert j == n || LatestUpdate(before, j, r, total);
      }
    }
  }

  ghost predicate IsLatest(ops: seq<ManagerOp>, r: Uid, total: int) {
    exists j: nat :: LatestUpdate(ops, j, r, total)
  }

  /** So the global total is the sum of the latest totals of the monitors not
      removed since, as int64. */
  lemma GlobalTotalIs(t: Thresholds, ops: seq<ManagerOp>, latest: map<Uid, int>)
    requires forall r, total :: (r in latest && latest[r] == total) <==> IsLatest(ops, r, total)
    ensures GlobalTotal(AfterOps(t, ops)) == Wrap64(Sum(latest))
  {
    hide Sum, AfterOps, LatestUpdate;
    var tracked := AfterOps(t, ops).perResource;
    forall r | r in tracked ensures r in latest && latest[r] == tracked[r] {
      TracksLatest(t, ops, r, tracked[r]);
      assert IsLatest(ops, r, tracked[r]);
    }
    forall r | r in latest ensures r in tracked {
      assert IsLatest(ops, r, latest[r]);
      TracksLatest(t, ops, r, latest[r]);
    }
    assert tracked == latest;
  }
}
