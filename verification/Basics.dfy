/** Shared vocabulary: optional values, byte-wise string order, permutations,
    finite sums, and Go's 64-bit wrap-around. */
module Basics {

  datatype Option<+T> = None | Some(value: T)

  /** Up to here every integer is a float64. */
  const TWO_53: int := 0x20_0000_0000_0000

  // ---- int64 -------------------------------------------------------------

  const TWO_63: int := 0x8000_0000_0000_0000
  const TWO_64: int := 0x1_0000_0000_0000_0000

  /** The int64 value a Go integer expression with mathematical value x has. */
  function Wrap64(x: int): (r: int)
    ensures -TWO_63 <= r < TWO_63
    ensures -TWO_63 <= x < TWO_63 ==> r == x
  {
    (x + TWO_63) % TWO_64 - TWO_63
  }

  lemma WrapShift(x: int, k: int)
    ensures Wrap64(x + k * TWO_64) == Wrap64(x)
  {
  }

  /** Wrap-around is a congruence, so intermediate wraps never show in the end. */
  lemma WrapAdd(a: int, b: int)
    ensures Wrap64(Wrap64(a) + b) == Wrap64(a + b)
  {
    WrapShift(a + b, -((a + TWO_63) / TWO_64));
  }

  // ---- sums over finite maps ----------------------------------------------

  ghost function Sum<K>(m: map<K, int>): int {
    if m == map[] then 0
    else
      var k :| k in m;
      m[k] + Sum(m - {k})
  }

  lemma EmptySum()
    ensures Sum<string>(map[]) == 0
  {
  }

  lemma {:induction false} SumRemove<K>(m: map<K, int>, k: K)
    requires k in m
    ensures Sum(m) == m[k] + Sum(m - {k})
    decreases |m|
  {
    var j :| j in m && Sum(m) == m[j] + Sum(m - {j});
    if j != k {
      SumRemove(m - {j}, k);
      SumRemove(m - {k}, j);
      assert m - {j} - {k} == m - {k} - {j};
    }
  }

  lemma SumInsert<K>(m: map<K, int>, k: K, v: int)
    ensures Sum(m[k := v]) == v + Sum(m - {k})
    ensures Sum(m[k := v]) == Sum(m) + v - (if k in m then m[k] else 0)
  {
    SumRemove(m[k := v], k);
    assert m[k := v] - {k} == m - {k};
    if k in m {
      SumRemove(m, k);
    } else {
      assert m - {k} == m;
    }
  }

  lemma {:induction false} SumMono<K>(a: map<K, int>, b: map<K, int>)
    requires a.Keys <= b.Keys
    requires forall k | k in a :: a[k] <= b[k]
    requires forall k | k in b :: 0 <= b[k]
    ensures Sum(a) <= Sum(b)
    decreases |b|
  {
    if b == map[] {
      assert a == map[];
    } else {
      var k :| k in b;
      SumRemove(b, k);
      SumMono(a - {k}, b - {k});
      if k in a {
        SumRemove(a, k);
      } else {
        assert a - {k} == a;
      }
    }
  }

  lemma {:induction false} SumAdd<K>(a: map<K, int>, b: map<K, int>)
    requires a.Keys == b.Keys
    ensures Sum(map k | k in a :: a[k] + b[k]) == Sum(a) + Sum(b)
    decreases |a|, 1
  {
    var c := map k | k in a :: a[k] + b[k];
    if a == map[] {
      assert b == map[] && c == map[];
    } else {
      var k :| k in a;
      SumRemove(a, k);
      SumRemove(b, k);
      SumRemove(c, k);
      SumAdd(a - {k}, b - {k});
      assert c - {k} == map j | j in a - {k} :: (a - {k})[j] + (b - {k})[j];
    }
  }

  // ---- byte-wise string order ----------------------------------------------

  predicate Le(a: string, b: string) {
    a == [] || (b != [] && (a[0] < b[0] || (a[0] == b[0] && Le(a[1..], b[1..]))))
  }

  lemma {:induction false} LeTotal(a: string, b: string)
    ensures Le(a, b) || Le(b, a)
  {
    if a != [] && b != [] && a[0] == b[0] {
      LeTotal(a[1..], b[1..]);
    }
  }

  lemma {:induction false} LeAntisymmetric(a: string, b: string)
    requires Le(a, b) && Le(b, a)
    ensures a == b
  {
    if a != [] && b != [] {
      LeAntisymmetric(a[1..], b[1..]);
      assert a == [a[0]] + a[1..] && b == [b[0]] + b[1..];
    }
  }

  lemma {:induction false} LeTransitive(a: string, b: string, c: string)
    requires Le(a, b) && Le(b, c)
    ensures Le(a, c)
  {
    if a != [] && a[0] == b[0] == c[0] {
      LeTransitive(a[1..], b[1..], c[1..]);
    }
  }

  predicate Sorted(s: seq<string>) {
    forall i, j | 0 <= i < j < |s| :: Le(s[i], s[j])
  }

  predicate Distinct<T(==)>(s: seq<T>) {
    forall i, j | 0 <= i < j < |s| :: s[i] != s[j]
  }

  // ---- permutations --------------------------------------------------------

  function Ids(n: nat): seq<nat> { seq(n, i => i) }

  ghost predicate IsPermutation(p: seq<nat>, n: nat) {
    multiset(p) == multiset(Ids(n))
  }

  predicate Below(p: seq<nat>, n: nat) {
    forall i | 0 <= i < |p| :: p[i] < n
  }

  function Apply<T>(s: seq<T>, p: seq<nat>): (r: seq<T>)
    requires Below(p, |s|)
    ensures |r| == |p| && forall i | 0 <= i < |p| :: r[i] == s[p[i]]
  {
    seq(|p|, i requires 0 <= i < |p| => s[p[i]])
  }

  lemma PermutationFacts(p: seq<nat>, n: nat)
    requires IsPermutation(p, n)
    ensures |p| == n && Below(p, n)
    ensures forall i: nat | i < n :: i in p
  {
    assert |multiset(p)| == |p| && |multiset(Ids(n))| == n;
    forall i | 0 <= i < |p| ensures p[i] < n {
      assert p[i] in multiset(p);
      assert p[i] in Ids(n);
    }
    forall i: nat | i < n ensures i in p {
      assert Ids(n)[i] == i;
      assert i in multiset(Ids(n));
      assert i in multiset(p);
    }
  }

  lemma SplitAt<T>(s: seq<T>, k: nat)
    requires k < |s|
    ensures multiset(s) == multiset(s[..k] + s[k+1..]) + multiset{s[k]}
  {
    assert s == s[..k] + [s[k]] + s[k+1..];
  }

  lemma SplitHead<T>(s: seq<T>)
    requires s != []
    ensures multiset(s) == multiset(s[1..]) + multiset{s[0]}
  {
    assert s == [s[0]] + s[1..];
  }

  lemma CancelOne<T>(x: multiset<T>, y: multiset<T>, t: T)
    requires x + multiset{t} == y + multiset{t}
    ensures x == y
  {
    assert x == (x + multiset{t}) - multiset{t};
  }

  /** Removing the head of one sequence and the same element from another. */
  lemma CancelHead<T>(a: seq<T>, b: seq<T>) returns (k: nat)
    requires a != [] && multiset(a) == multiset(b)
    ensures k < |b| && b[k] == a[0]
    ensures multiset(a[1..]) == multiset(b[..k] + b[k+1..])
  {
    assert a[0] in multiset(b);
    k :| 0 <= k < |b| && b[k] == a[0];
    SplitAt(b, k);
    SplitHead(a);
    CancelOne(multiset(a[1..]), multiset(b[..k] + b[k+1..]), a[0]);
  }

  lemma ApplySplit<T>(s: seq<T>, p: seq<nat>, k: nat)
    requires Below(p, |s|) && k < |p|
    ensures multiset(Apply(s, p)) == multiset(Apply(s, p[..k] + p[k+1..])) + multiset{s[p[k]]}
  {
    SplitAt(Apply(s, p), k);
    assert Apply(s, p)[..k] + Apply(s, p)[k+1..] == Apply(s, p[..k] + p[k+1..]);
  }

  lemma ApplyHead<T>(s: seq<T>, p: seq<nat>)
    requires Below(p, |s|) && p != []
    ensures multiset(Apply(s, p)) == multiset(Apply(s, p[1..])) + multiset{s[p[0]]}
  {
    SplitHead(Apply(s, p));
    assert Apply(s, p)[1..] == Apply(s, p[1..]);
  }

  /** Reading a sequence through two index lists with the same contents gives
      the same elements with the same multiplicities. */
  lemma {:induction false} ApplyMultiset<T>(s: seq<T>, p: seq<nat>, q: seq<nat>)
    requires Below(p, |s|) && Below(q, |s|)
    requires multiset(p) == multiset(q)
    ensures multiset(Apply(s, p)) == multiset(Apply(s, q))
    decreases |p|
  {
    if p == [] {
      assert |multiset(q)| == 0;
    } else {
      var k := CancelHead(p, q);
      ApplyMultiset(s, p[1..], q[..k] + q[k+1..]);
      ApplyHead(s, p);
      ApplySplit(s, q, k);
    }
  }

  lemma PermutedMultiset<T>(s: seq<T>, p: seq<nat>)
    requires IsPermutation(p, |s|)
    ensures Below(p, |s|) && multiset(Apply(s, p)) == multiset(s)
  {
    PermutationFacts(p, |s|);
    ApplyMultiset(s, p, Ids(|s|));
    assert Apply(s, Ids(|s|)) == s;
  }

  lemma SortedHead(a: seq<string>, b: seq<string>)
    requires Sorted(a) && a != [] && b != [] && b[0] in a
    ensures Le(a[0], b[0])
  {
    var j :| 0 <= j < |a| && a[j] == b[0];
    if j == 0 {
      LeTotal(a[0], a[0]);
    }
  }

  /** A sorted sequence is determined by its elements. */
  lemma {:induction false} SortedUnique(a: seq<string>, b: seq<string>)
    requires Sorted(a) && Sorted(b)
    requires multiset(a) == multiset(b)
    ensures a == b
    decreases |a|, 1
  {
    if a == [] {
      assert |multiset(b)| == 0;
    } else {
      var k := CancelHead(a, b);
      assert b[0] in multiset(a) && b[k] == a[0];
      SortedHead(a, b);
      SortedHead(b, a);
      LeAntisymmetric(a[0], b[0]);
      SortedTail(a, b);
    }
  }

  lemma SortedTail(a: seq<string>, b: seq<string>)
    requires Sorted(a) && Sorted(b) && a != [] && b != [] && a[0] == b[0]
    requires multiset(a) == multiset(b)
    ensures a == b
    decreases |a|, 0
  {
    SplitHead(a);
    SplitHead(b);
    CancelOne(multiset(a[1..]), multiset(b[1..]), a[0]);
    SortedUnique(a[1..], b[1..]);
  }

  // ---- text ----------------------------------------------------------------

  function Concat(parts: seq<string>): string {
    if parts == [] then "" else parts[0] + Concat(parts[1..])
  }

  lemma {:induction false} ConcatAppend(a: seq<string>, b: seq<string>)
    ensures Concat(a + b) == Concat(a) + Concat(b)
  {
    if a == [] {
      assert a + b == b;
    } else {
      assert (a + b)[1..] == a[1..] + b;
      ConcatAppend(a[1..], b);
      assert Concat(a + b) == a[0] + Concat(a[1..] + b);
      assert a[0] + (Concat(a[1..]) + Concat(b)) == (a[0] + Concat(a[1..])) + Concat(b);
    }
  }

  /** The number of line feeds in a text. */
  function Lines(s: string): nat {
    if s == [] then 0 else (if s[0] == '\n' then 1 else 0) + Lines(s[1..])
  }

  lemma {:induction false} LinesAppend(a: string, b: string)
    ensures Lines(a + b) == Lines(a) + Lines(b)
  {
    if a == [] {
      assert a + b == b;
    } else {
      LinesAppend(a[1..], b);
      assert (a + b)[1..] == a[1..] + b;
    }
  }

  lemma {:induction false} NoLines(a: string)
    requires '\n' !in a
    ensures Lines(a) == 0
  {
    if a != [] {
      NoLines(a[1..]);
    }
  }
}
