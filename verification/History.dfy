/** Cutoff flags over whole runs of one tracker: which past checks a flag
    remembers (internal/cardinality.go). */
module History {
  import opened Tracker

  datatype Op = OpUpdate(uid: Uid, counts: Counts) | OpDelete(uid: Uid) | OpCheck | OpReset

  /** What the tracker's methods do to the abstract state. */
  ghost function Next(st: State, op: Op): State {
    match op
    case OpUpdate(u, c) => st.(objects := st.objects[u := c], known := st.known + c.Keys)
    case OpDelete(u) => st.(objects := st.objects - {u})
    case OpCheck => Checked(st)
    case OpReset => State(map[], {}, {}, st.limits)
  }

  ghost function After(limits: Limits, ops: seq<Op>): State {
    if ops == [] then State(map[], {}, {}, limits)
    else Next(After(limits, ops[..|ops| - 1]), ops[|ops| - 1])
  }

  lemma {:induction false} LimitsKept(limits: Limits, ops: seq<Op>)
    ensures After(limits, ops).limits == limits
  {
    if ops != [] {
      LimitsKept(limits, ops[..|ops| - 1]);
    }
  }

  /** Operation j is a check that no later Reset has wiped. */
  predicate CheckAt(ops: seq<Op>, j: nat) {
    j < |ops| && ops[j] == OpCheck && forall k | j < k < |ops| :: ops[k] != OpReset
  }

  /** A check at j saw the store over its limit while f was already known. */
  ghost predicate StoreCutAt(limits: Limits, ops: seq<Op>, j: nat, f: string) {
    && CheckAt(ops, j)
    && f in After(limits, ops[..j]).known
    && StoreExceeded(After(limits, ops[..j]))
  }

  /** A family without its own limit is cut off exactly when some check since
      the last Reset cut the whole store with the family known: the flag is a
      latch, later checks below the limit do not release it. */
  lemma {:induction false} UnlimitedFamilyLatch(limits: Limits, ops: seq<Op>, f: string)
    requires !HasOwnLimit(limits, f)
    ensures f in After(limits, ops).cut <==> exists j: nat :: StoreCutAt(limits, ops, j, f)
    decreases |ops|
  {
    if ops != [] {
      hide Next, StoreExceeded, HasOwnLimit, StoreCutAt;
      var n := |ops| - 1;
      var init := ops[..n];
      LimitsKept(limits, init);
      UnlimitedFamilyLatch(limits, init, f);
      forall j: nat ensures StoreCutAt(limits, ops, j, f) <==>
          (ops[n] != OpReset && StoreCutAt(limits, init, j, f)) ||
          (j == n && ops[n] == OpCheck && f in After(limits, init).known && StoreExceeded(After(limits, init)))
      {
        StoreCutStep(limits, ops, j, f);
      }
      LatchStep(After(limits, init), ops[n], f);
      if j: nat :| StoreCutAt(limits, init, j, f) {
        assert ops[n] != OpReset ==> StoreCutAt(limits, ops, j, f);
      }
      assert f in After(limits, init).known && StoreExceeded(After(limits, init)) && ops[n] == OpCheck
             ==> StoreCutAt(limits, ops, n, f);
    }
  }

  lemma StoreCutStep(limits: Limits, ops: seq<Op>, j: nat, f: string)
    requires ops != []
    ensures StoreCutAt(limits, ops, j, f) <==>
            var n, init := |ops| - 1, ops[..|ops| - 1];
            (ops[n] != OpReset && StoreCutAt(limits, init, j, f)) ||
            (j == n && ops[n] == OpCheck && f in After(limits, init).known && StoreExceeded(After(limits, init)))
  {
    hide StoreExceeded;
    if j < |ops| - 1 {
      EarlierCheck(ops, j);
    }
  }

  lemma LatchStep(st: State, op: Op, f: string)
    requires !HasOwnLimit(st.limits, f)
    ensures f in Next(st, op).cut <==>
              (op != OpReset && f in st.cut) || (op == OpCheck && f in st.known && StoreExceeded(st))
  {
  }

  lemma EarlierCheck(ops: seq<Op>, j: nat)
    requires j < |ops| - 1
    ensures ops[..|ops| - 1][..j] == ops[..j]
    ensures CheckAt(ops, j) <==> ops[|ops| - 1] != OpReset && CheckAt(ops[..|ops| - 1], j)
  {
    var init := ops[..|ops| - 1];
    assert init[j] == ops[j];
    if CheckAt(init, j) && ops[|ops| - 1] != OpReset {
      forall k | j < k < |ops| ensures ops[k] != OpReset {
        assert k < |init| ==> init[k] == ops[k];
      }
    }
  }

  /** The most recent check, if no Reset came after it. */
  predicate LastCheck(ops: seq<Op>, j: nat) {
    CheckAt(ops, j) && forall k | j < k < |ops| :: ops[k] != OpCheck
  }

  ghost predicate CutAt(limits: Limits, ops: seq<Op>, j: nat, f: string) {
    var st := After(limits, if j <= |ops| then ops[..j] else ops);
    f in st.known && (FamilyExceeded(st, f) || StoreExceeded(st))
  }

  lemma {:induction false} CutIsKnown(limits: Limits, ops: seq<Op>)
    ensures After(limits, ops).cut <= After(limits, ops).known
  {
    if ops != [] {
      CutIsKnown(limits, ops[..|ops| - 1]);
    }
  }

  /** A family with its own limit is cut off exactly when the most recent check
      found it, or the store, over the limit: it recovers at the first check
      that finds both back in bounds. */
  lemma {:induction false} LimitedFamilyFollowsLastCheck(limits: Limits, ops: seq<Op>, f: string)
    requires HasOwnLimit(limits, f)
    ensures f in After(limits, ops).cut <==> exists j: nat :: LastCheck(ops, j) && CutAt(limits, ops, j, f)
    decreases |ops|
  {
    if ops != [] {
      var n := |ops| - 1;
      var init := ops[..n];
      LimitsKept(limits, init);
      CutIsKnown(limits, init);
      if ops[n] == OpCheck {
        assert LastCheck(ops, n);
        assert forall j :: LastCheck(ops, j) ==> j == n;
        assert CutAt(limits, ops, n, f) <==> f in After(limits, ops).cut;
      } else if ops[n] == OpReset {
        assert forall j :: !LastCheck(ops, j);
      } else {
        LimitedFamilyFollowsLastCheck(limits, init, f);
        forall j: nat | j < n ensures init[..j] == ops[..j] && (LastCheck(ops, j) <==> LastCheck(init, j)) {
          EarlierCheck(ops, j);
          assert forall k | 0 <= k < n :: ops[k] == init[k];
        }
      }
    }
  }
}
