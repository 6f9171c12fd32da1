/** Collecting list elements back from keys like "parent#N"
    (internal/family.go, collectIndexedResolvedValues). */
module Collect {
  import opened Basics

  // ---- the index in a key --------------------------------------------------------

  predicate IsDigit(c: char) { '0' <= c <= '9' }

  function DigitValue(c: char): nat
    requires IsDigit(c)
  {
    (c - '0') as int
  }

  predicate AllDigits(s: string) {
    forall i | 0 <= i < |s| :: IsDigit(s[i])
  }

  function Decimal(s: string): nat
    requires AllDigits(s)
  {
    if s == [] then 0 else 10 * Decimal(s[..|s| - 1]) + DigitValue(s[|s| - 1])
  }

  /** strings.LastIndexByte(k, '#') */
  function LastHash(k: string): (h: int)
    ensures -1 <= h < |k|
    ensures 0 <= h ==> k[h] == '#'
    ensures forall i | h < i < |k| :: k[i] != '#'
  {
    if k == [] then -1
    else if k[|k| - 1] == '#' then |k| - 1
    else LastHash(k[..|k| - 1])
  }

  /** The forms strconv.Itoa produces: no sign, no leading zero. */
  predicate Canonical(suffix: string) {
    suffix != "" && AllDigits(suffix) && (suffix[0] == '0' ==> |suffix| == 1)
  }

  /** The list index a key carries after its last '#'. */
  function IndexOf(k: string): Option<nat> {
    var h := LastHash(k);
    if h >= 0 && Canonical(k[h + 1..]) then Some(Decimal(k[h + 1..])) else None
  }

  /** strconv.Atoi on an unsigned string: no digits-only form or no int64, no value. */
  function Atoi(s: string): Option<nat> {
    if s != "" && AllDigits(s) && Decimal(s) < TWO_63 then Some(Decimal(s)) else None
  }

  // ---- the contiguous run ------------------------------------------------------------

  ghost predicate HasIndex(r: map<string, string>, i: nat) {
    exists k :: k in r && IndexOf(k) == Some(i)
  }

  ghost predicate IsEntry(r: map<string, string>, i: nat, value: string) {
    exists k :: k in r && IndexOf(k) == Some(i) && r[k] == value
  }

  /** The values under #0, #1, ... up to the first index no key carries. */
  ghost predicate IsRun(r: map<string, string>, run: seq<string>) {
    && (forall i: nat | i < |run| :: IsEntry(r, i, run[i]))
    && !HasIndex(r, |run|)
  }

  ghost predicate UniqueIndices(r: map<string, string>) {
    forall j, k | j in r && k in r && IndexOf(j).Some? && IndexOf(j) == IndexOf(k) :: j == k
  }

  /** The run's length depends on the keys alone, and with one key per index
      there is only one run. */
  lemma RunDetermined(r: map<string, string>, r': map<string, string>, a: seq<string>, b: seq<string>)
    requires r.Keys == r'.Keys && IsRun(r, a) && IsRun(r', b)
    ensures |a| == |b|
    ensures r == r' && UniqueIndices(r) ==> a == b
  {
    hide IndexOf;
    forall i: nat | i < |a| ensures HasIndex(r', i) { assert IsEntry(r, i, a[i]); }
    forall i: nat | i < |b| ensures HasIndex(r, i) { assert IsEntry(r', i, b[i]); }
    forall i: nat | i < |a| && r == r' && UniqueIndices(r) ensures a[i] == b[i] {
      assert IsEntry(r, i, a[i]) && IsEntry(r, i, b[i]);
    }
  }

  lemma SizeAfterRemoval(r: map<string, string>, k: string)
    requires k in r
    ensures |r| == |r - {k}| + 1
  {
    assert r.Keys == (r - {k}).Keys + {k};
    assert |r.Keys| == |r| && |(r - {k}).Keys| == |r - {k}|;
  }

  /** Distinct indices need distinct keys. */
  lemma {:induction false} Pigeonhole(r: map<string, string>, n: nat)
    requires forall i: nat | i < n :: HasIndex(r, i)
    ensures n <= |r|
  {
    hide IndexOf;
    if n > 0 {
      assert HasIndex(r, n - 1);
      var k :| k in r && IndexOf(k) == Some(n - 1);
      var rest := r - {k};
      forall i: nat | i < n - 1 ensures HasIndex(rest, i) {
        assert HasIndex(r, i);
        var j :| j in r && IndexOf(j) == Some(i);
        assert j in rest;
      }
      Pigeonhole(rest, n - 1);
      SizeAfterRemoval(r, k);
    }
  }

  // ---- staging in flat arrays -----------------------------------------------------------

  /** The staging arrays hold exactly the entries among the keys in done. */
  ghost predicate Staged(r: map<string, string>, done: set<string>, staged: seq<string>, present: seq<bool>)
    requires done <= r.Keys
  {
    && |staged| == |present| == |r|
    && (forall i: nat | i < |r| && present[i] :: exists k :: k in done && IndexOf(k) == Some(i) && r[k] == staged[i])
    && (forall k | k in done && IndexOf(k).Some? && IndexOf(k).value < |r| :: present[IndexOf(k).value])
  }

  /** No key in done has an index small enough to be staged. */
  ghost predicate NoneSmall(r: map<string, string>, done: set<string>) {
    forall k | k in done && IndexOf(k).Some? :: IndexOf(k).value >= |r|
  }

  lemma StagedRun(r: map<string, string>, staged: seq<string>, present: seq<bool>, end: nat)
    requires Staged(r, r.Keys, staged, present)
    requires end <= |r| && (forall i | 0 <= i < end :: present[i]) && (end < |r| ==> !present[end])
    ensures IsRun(r, staged[..end])
  {
    var run := staged[..end];
    forall i: nat | i < end ensures IsEntry(r, i, run[i]) {
      assert present[i];
    }
    if end < |r| {
      forall k | k in r ensures IndexOf(k) != Some(end) {}
    } else if HasIndex(r, end) {
      forall i: nat | i < end + 1 ensures HasIndex(r, i) {
        if i < end {
          assert IsEntry(r, i, run[i]);
        }
      }
      Pigeonhole(r, end + 1);
    }
  }

  lemma NonEmpty(r: map<string, string>, k: string)
    requires k in r
    ensures 0 < |r|
  {
    assert r == (r - {k})[k := r[k]];
  }

  lemma EmptyRun(r: map<string, string>)
    requires NoneSmall(r, r.Keys)
    ensures IsRun(r, [])
  {
    forall k | k in r ensures IndexOf(k) != Some(0) {
      NonEmpty(r, k);
    }
  }

  lemma BlankStaged(r: map<string, string>, done: set<string>, staged: seq<string>, present: seq<bool>)
    requires done <= r.Keys && NoneSmall(r, done)
    requires |staged| == |present| == |r| && forall i | 0 <= i < |r| :: !present[i]
    ensures Staged(r, done, staged, present)
  {
  }

  lemma NoKeys(r: map<string, string>)
    ensures Progress(r, r.Keys - r.Keys, None, [])
  {
  }

  /** The state of the loop: nothing allocated yet, or staged exactly. */
  ghost predicate Progress(r: map<string, string>, done: set<string>, staged: Option<seq<string>>, present: seq<bool>) {
    done <= r.Keys && if staged == None then NoneSmall(r, done) else Staged(r, done, staged.value, present)
  }

  lemma SkipStep(r: map<string, string>, done: set<string>, k: string, staged: Option<seq<string>>, present: seq<bool>)
    requires k in r && Progress(r, done, staged, present)
    requires IndexOf(k).Some? ==> IndexOf(k).value >= |r|
    ensures Progress(r, done + {k}, staged, present)
  {
    hide IndexOf;
    if staged.Some? {
      forall i: nat | i < |r| && present[i]
        ensures exists q :: q in done + {k} && IndexOf(q) == Some(i) && r[q] == staged.value[i]
      {
        var q :| q in done && IndexOf(q) == Some(i) && r[q] == staged.value[i];
        assert q in done + {k};
      }
    }
  }

  lemma StagedStep(r: map<string, string>, done: set<string>, k: string, staged: seq<string>, present: seq<bool>)
    requires done <= r.Keys && k in r && Staged(r, done, staged, present)
    requires IndexOf(k).Some? && IndexOf(k).value < |r|
    ensures Staged(r, done + {k}, staged[IndexOf(k).value := r[k]], present[IndexOf(k).value := true])
  {
    hide IndexOf;
    var i := IndexOf(k).value;
    forall j: nat | j < |r| && present[i := true][j]
      ensures exists q :: q in done + {k} && IndexOf(q) == Some(j) && r[q] == staged[i := r[k]][j]
    {
      if j == i {
        assert k in done + {k};
      } else {
        var q :| q in done && IndexOf(q) == Some(j) && r[q] == staged[j];
        assert q in done + {k};
      }
    }
  }

  /** The parsing steps of the loop body, with the size of the map as limit. */
  method StagingIndex(k: string, limit: nat) returns (index: Option<nat>)
    requires limit < TWO_63
    ensures index == if IndexOf(k).Some? && IndexOf(k).value < limit then IndexOf(k) else None
  {
    var hash := LastHash(k);
    if hash < 0 {
      return None;
    }
    var suffix := k[hash + 1..];
    if suffix == "" || suffix[0] == '+' || suffix[0] == '-' || (suffix[0] == '0' && |suffix| > 1) {
      return None;
    }
    index := Atoi(suffix);
    if index.Some? && index.value >= limit {
      return None;
    }
  }

  /** Indices at or beyond len(resolved) are ignored, and yet the result is the
      run of the unbounded index map, for every iteration order. */
  method CollectIndexedResolvedValues(resolved: map<string, string>) returns (run: seq<string>)
    requires |resolved| < TWO_63
    ensures IsRun(resolved, run)
  {
    hide NoneSmall, Staged, IsRun, IndexOf, Progress;
    NoKeys(resolved);
    var staged: array?<string> := null;
    var present: array?<bool> := null;
    var rest := resolved.Keys;
    while rest != {}
      invariant rest <= resolved.Keys
      invariant (staged == null) == (present == null)
      invariant staged != null ==> fresh(staged) && fresh(present) && staged.Length == present.Length == |resolved|
      invariant staged == null ==> Progress(resolved, resolved.Keys - rest, None, [])
      invariant staged != null ==> Progress(resolved, resolved.Keys - rest, Some(staged[..]), present[..])
      decreases rest
    {
      var k :| k in rest;
      ghost var done := resolved.Keys - rest;
      staged, present := CollectOne(resolved, done, k, staged, present);
      rest := rest - {k};
      assert done + {k} == resolved.Keys - rest;
    }
    assert resolved.Keys - rest == resolved.Keys;
    AllDone(resolved, if staged == null then None else Some(staged[..]), if present == null then [] else present[..]);
    if staged == null {
      EmptyRun(resolved);
      return [];
    }
    run := ContiguousRun(resolved, staged, present);
  }

  /** The loop body: stage one entry, allocating the arrays when first needed. */
  method CollectOne(resolved: map<string, string>, ghost done: set<string>, k: string,
                    staged: array?<string>, present: array?<bool>)
    returns (staged': array?<string>, present': array?<bool>)
    requires |resolved| < TWO_63 && k in resolved
    requires (staged == null) == (present == null)
    requires staged != null ==> staged.Length == present.Length == |resolved|
    requires staged == null ==> Progress(resolved, done, None, [])
    requires staged != null ==> Progress(resolved, done, Some(staged[..]), present[..])
    modifies staged, present
    ensures (staged' == null) == (present' == null)
    ensures staged != null ==> staged' == staged && present' == present
    ensures staged == null && staged' != null ==> fresh(staged') && fresh(present')
    ensures staged' != null ==> staged'.Length == present'.Length == |resolved|
    ensures staged' == null ==> Progress(resolved, done + {k}, None, [])
    ensures staged' != null ==> Progress(resolved, done + {k}, Some(staged'[..]), present'[..])
  {
    hide NoneSmall, Staged, IndexOf;
    staged', present' := staged, present;
    var index := StagingIndex(k, |resolved|);
    if index == None {
      SkipStep(resolved, done, k, if staged == null then None else Some(staged[..]),
               if present == null then [] else present[..]);
      return;
    }
    if staged' == null {
      staged' := new string[|resolved|](_ => "");
      present' := new bool[|resolved|](_ => false);
      BlankStaged(resolved, done, staged'[..], present'[..]);
    }
    Stage(resolved, done, k, index.value, staged', present');
  }

  lemma AllDone(r: map<string, string>, staged: Option<seq<string>>, present: seq<bool>)
    requires Progress(r, r.Keys, staged, present)
    ensures staged == None ==> NoneSmall(r, r.Keys)
    ensures staged.Some? ==> Staged(r, r.Keys, staged.value, present)
  {
  }

  method Stage(resolved: map<string, string>, ghost done: set<string>, k: string, i: nat,
               staged: array<string>, present: array<bool>)
    requires done <= resolved.Keys && k in resolved && IndexOf(k) == Some(i) && i < |resolved|
    requires staged.Length == present.Length == |resolved| && Staged(resolved, done, staged[..], present[..])
    modifies staged, present
    ensures Staged(resolved, done + {k}, staged[..], present[..])
  {
    hide Staged, IndexOf;
    StagedStep(resolved, done, k, staged[..], present[..]);
    ghost var staged', present' := staged[..][i := resolved[k]], present[..][i := true];
    staged[i] := resolved[k];
    present[i] := true;
    assert staged[..] == staged' && present[..] == present';
  }

  method ContiguousRun(resolved: map<string, string>, staged: array<string>, present: array<bool>)
    returns (run: seq<string>)
    requires staged.Length == present.Length == |resolved|
    requires Staged(resolved, resolved.Keys, staged[..], present[..])
    ensures IsRun(resolved, run)
  {
    hide Staged, IsRun;
    var end := 0;
    while end < present.Length && present[end]
      invariant end <= present.Length
      invariant forall i | 0 <= i < end :: present[i]
    {
      end := end + 1;
    }
    StagedRun(resolved, staged[..], present[..], end);
    return staged[..end];
  }
}
